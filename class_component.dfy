/**
 * The class component (section 6.8 of the Java Card 2.1 Virtual Machine
 * Specification): one record per interface and per class of the package. An
 * interface record lists its superinterfaces; a class record gives its superclass,
 * its instance layout, its public and package virtual method tables and the
 * interfaces it implements. Building the component also adds each object's class
 * descriptor to the descriptor component, object by object.
 */
module Classes {
  import opened Wrappers
  import opened Bytes
  import opened Jca
  import opened Table
  import D = Descriptor
  import CP = ConstantPool

  const ACC_INTERFACE := 0x08
  const ACC_SHAREABLE := 0x04

  /** An implemented interface: the interface (unset when no object carries its name), the method count and indices. */
  datatype ImplementedInterfaceInfo = ImplementedInterfaceInfo(theInterface: Option<D.ClassRefInfo>, count: int,
                                                               index: seq<int>)

  /** A class record; the two method tables hold method offsets, 0xFFFF where the method has none. */
  datatype ClassInfo = ClassInfo(flags: int, superClassRef: D.ClassRefInfo, declaredInstanceSize: int,
                                 firstReferenceToken: int, referenceCount: int,
                                 publicBase: int, publicCount: int, publicTable: seq<int>,
                                 packageBase: int, packageCount: int, packageTable: seq<int>,
                                 interfaces: seq<ImplementedInterfaceInfo>)

  /** An interface record: its bitfield and one reference per superinterface. */
  datatype InterfaceInfo = InterfaceInfo(bitfield: int, superInterfaces: seq<D.ClassRefInfo>)

  /** The record one object of the package becomes. */
  datatype Record = InterfaceRecord(iface: InterfaceInfo) | ClassRecord(info: ClassInfo)

  // ---------------------------------------------------------------- bitfields

  /** A bitfield byte: the flags shifted into the high nibble, the low 4 bits of a count below. */
  function Bitfield(flags: int, count: int): int
  {
    ToByte(flags * 16 + count % 16)
  }

  /** Flags below 16 come back as the high nibble and the count's low bits as the low one. */
  lemma BitfieldNibbles(flags: int, count: int)
    requires 0 <= flags < 16
    ensures IsByte(Bitfield(flags, count))
    ensures Bitfield(flags, count) / 16 == flags && Bitfield(flags, count) % 16 == count % 16
  {
  }

  /** A class's bitfield: `ACC_SHAREABLE` when it is shareable, and its interface count. */
  function ClassBitfield(o: Object): int
    requires o.Class?
  {
    Bitfield(if o.isShareable then ACC_SHAREABLE else 0, |o.interfaces|)
  }

  /** An interface's bitfield: `ACC_INTERFACE`, `ACC_SHAREABLE` when it is shareable, and its superinterface count. */
  function InterfaceBitfield(o: Object): int
    requires o.Interface?
  {
    Bitfield(ACC_INTERFACE + (if o.isShareable then ACC_SHAREABLE else 0), |o.superInterfaces|)
  }

  /**
   * A class's bitfield holds `ACC_SHAREABLE` as its high nibble exactly when the class
   * is shareable, never `ACC_INTERFACE`, and the interface count's low 4 bits.
   */
  lemma ClassBitfieldMeaning(o: Object)
    requires o.Class?
    ensures IsByte(ClassBitfield(o)) && ClassBitfield(o) < 0x80
    ensures ClassBitfield(o) / 16 == (if o.isShareable then ACC_SHAREABLE else 0)
    ensures ClassBitfield(o) % 16 == |o.interfaces| % 16
  {
    BitfieldNibbles(if o.isShareable then ACC_SHAREABLE else 0, |o.interfaces|);
  }

  /**
   * An interface's bitfield holds `ACC_INTERFACE`, and `ACC_SHAREABLE` exactly when the
   * interface is shareable, as its high nibble, and the superinterface count's low 4 bits.
   */
  lemma InterfaceBitfieldMeaning(o: Object)
    requires o.Interface?
    ensures IsByte(InterfaceBitfield(o)) && InterfaceBitfield(o) >= 0x80
    ensures InterfaceBitfield(o) / 16 == ACC_INTERFACE + (if o.isShareable then ACC_SHAREABLE else 0)
    ensures InterfaceBitfield(o) % 16 == |o.superInterfaces| % 16
  {
    BitfieldNibbles(ACC_INTERFACE + (if o.isShareable then ACC_SHAREABLE else 0), |o.superInterfaces|);
  }

  // ---------------------------------------------------------------- superclass

  /** `super_class_ref`: 0xFFFF without a superclass, the tokens of an imported one, else the offset of the named one. */
  function SuperClassRef(objs: seq<Object>, o: Object): D.ClassRefInfo
    requires o.Class?
  {
    match o.superClass
    case None => D.InternalRef(0xFFFF)
    case Some(r) =>
      if r.hasToken then CP.ExternalClass(r.packageToken, r.classToken) else D.InternalRef(OffsetOfName(objs, r.name))
  }

  /**
   * A class without a superclass refers to 0xFFFF; an imported superclass by its
   * package token with the high bit set; a superclass of the package by the offset
   * of the first object with its name, and an unknown name by the offset past the
   * last record.
   */
  lemma SuperClassRefMeaning(objs: seq<Object>, o: Object)
    requires o.Class?
    ensures o.superClass.None? ==> SuperClassRef(objs, o) == D.InternalRef(0xFFFF)
    ensures o.superClass.Some? && o.superClass.value.hasToken ==>
              var r := SuperClassRef(objs, o);
              r.ExternalRef? && r.packageToken >= 0x80 && r.packageToken % 0x80 == o.superClass.value.packageToken % 0x80
    ensures o.superClass.Some? && !o.superClass.value.hasToken ==>
              var i := IndexOfName(objs, o.superClass.value.name);
              && SuperClassRef(objs, o) == D.InternalRef(OffsetBefore(objs, i))
              && (i < |objs| <==> exists j :: 0 <= j < |objs| && Some(objs[j].name) == o.superClass.value.name)
  {
  }

  /** The superclass loop: sum the record sizes up to the first object with the superclass's name. */
  method ComputeSuperClassRef(objs: seq<Object>, o: Object) returns (r: D.ClassRefInfo)
    requires o.Class?
    ensures r == SuperClassRef(objs, o)
  {
    if o.superClass.None? {
      return D.InternalRef(0xFFFF);
    }
    var s := o.superClass.value;
    if s.hasToken {
      return D.ExternalRef(ExternalPackage(s.packageToken), ToByte(s.classToken));
    }
    var offset := ClassOffset(objs, s.name);
    return D.InternalRef(offset);
  }

  // ---------------------------------------------------------------- instance layout

  /** The instance slots a field takes: none if static, one for a boolean, byte, short, reference or array, two for an int. */
  function Slots(f: Field): (r: int)
    ensures 0 <= r <= 2
  {
    if f.isStatic then 0
    else if f.ftype.isArray then 1
    else match f.ftype.kind
      case BOOLEAN => 1
      case BYTE => 1
      case SHORT => 1
      case REFERENCE => 1
      case INT => 2
      case VOID => 0
  }

  /** An instance field holding a reference: an array or an object. */
  predicate IsReference(f: Field)
  {
    !f.isStatic && (f.ftype.isArray || f.ftype.kind == REFERENCE)
  }

  /** The declared instance size, before its cast to a byte: the slots of all fields. */
  function InstanceSize(fs: seq<Field>): (r: int)
  {
    if fs == [] then 0 else InstanceSize(fs[..|fs| - 1]) + Slots(fs[|fs| - 1])
  }

  /** The number of reference fields. */
  function ReferenceCount(fs: seq<Field>): (r: int)
  {
    if fs == [] then 0 else ReferenceCount(fs[..|fs| - 1]) + (if IsReference(fs[|fs| - 1]) then 1 else 0)
  }

  /** The index of the first reference field, or the field count when there is none. */
  function FirstReference(fs: seq<Field>): (r: int)
    ensures 0 <= r <= |fs|
    ensures forall i :: 0 <= i < r ==> !IsReference(fs[i])
    ensures r < |fs| ==> IsReference(fs[r])
  {
    if fs == [] || IsReference(fs[0]) then 0
    else
      var r := 1 + FirstReference(fs[1..]);
      assert forall i :: 1 <= i < |fs| ==> fs[i] == fs[1..][i - 1];
      r
  }

  /** `first_reference_token`: the instance size before the first reference field, or 0xFF without one. */
  function FirstReferenceToken(fs: seq<Field>): (r: int)
    ensures IsByte(r)
  {
    var i := FirstReference(fs);
    if i < |fs| then ToByte(InstanceSize(fs[..i])) else 0xFF
  }

  /** Every reference field takes one slot, and no field more than two. */
  lemma {:induction false} InstanceSizeBounds(fs: seq<Field>)
    ensures 0 <= ReferenceCount(fs) <= InstanceSize(fs) <= 2 * |fs|
  {
    if fs != [] {
      InstanceSizeBounds(fs[..|fs| - 1]);
    }
  }

  /** The reference count is zero exactly when no field is a reference. */
  lemma {:induction false} ReferenceCountZero(fs: seq<Field>)
    ensures ReferenceCount(fs) == 0 <==> FirstReference(fs) == |fs|
  {
    if fs != [] {
      var init := fs[..|fs| - 1];
      ReferenceCountZero(init);
      InstanceSizeBounds(init);
      if FirstReference(init) < |init| {
        assert IsReference(fs[FirstReference(init)]);
      }
    }
  }

  lemma PrefixNext(fs: seq<Field>, k: int)
    requires 0 <= k < |fs|
    ensures fs[..k + 1][..k] == fs[..k] && fs[..k + 1][k] == fs[k]
  {
  }

  /**
   * The field loop of the constructor: `declared_instance_size`, `first_reference_token`
   * and `reference_count`, each kept in a byte as it grows.
   */
  method ComputeInstanceLayout(fs: seq<Field>) returns (size: int, first: int, count: int)
    ensures size == ToByte(InstanceSize(fs)) && count == ToByte(ReferenceCount(fs))
    ensures first == FirstReferenceToken(fs)
  {
    size := 0;
    count := 0;
    var found := false;
    first := 0;
    var k := 0;
    while k < |fs|
      invariant 0 <= k <= |fs|
      invariant size == ToByte(InstanceSize(fs[..k])) && count == ToByte(ReferenceCount(fs[..k]))
      invariant found <==> FirstReference(fs) < k
      invariant found ==> first == ToByte(InstanceSize(fs[..FirstReference(fs)]))
    {
      var f := fs[k];
      PrefixNext(fs, k);
      ByteAdd(InstanceSize(fs[..k]), Slots(f));
      ByteAdd(ReferenceCount(fs[..k]), if IsReference(f) then 1 else 0);
      if !f.isStatic {
        if f.ftype.isArray || f.ftype.kind == REFERENCE {
          if !found {
            first := size;
            found := true;
          }
          size := ToByte(size + 1);
          count := ToByte(count + 1);
        } else if f.ftype.kind == INT {
          size := ToByte(size + 2);
        } else if f.ftype.kind != VOID {
          size := ToByte(size + 1);
        }
      }
      k := k + 1;
    }
    assert fs[..|fs|] == fs;
    if !found {
      first := 0xFF;
    }
  }

  // ---------------------------------------------------------------- virtual method tables

  /** A table method's offset in the method component, or 0xFFFF when it has none. */
  function MethodOffsetOr(offsets: map<string, int>, m: MethodRef): int
  {
    var sig := CP.Signature(m);
    if sig in offsets then offsets[sig] else 0xFFFF
  }

  /**
   * A virtual method table: one offset per method from `base` to the end of the
   * table, none when `base` is past it; a negative base fails on the first lookup.
   */
  function VirtualTable(table: seq<MethodRef>, base: int, offsets: map<string, int>): (r: Result<seq<int>>)
  {
    if base < 0 then Err("IndexOutOfBoundsException")
    else Ok(seq(if base < |table| then |table| - base else 0, k requires 0 <= k < |table| - base =>
                  MethodOffsetOr(offsets, table[base + k])))
  }

  /**
   * The table fails exactly on a negative base; otherwise entry `i - base` is the
   * offset of method `i`, or 0xFFFF for a method the method component has not placed.
   */
  lemma VirtualTableMeaning(table: seq<MethodRef>, base: int, offsets: map<string, int>)
    ensures var r := VirtualTable(table, base, offsets);
            && (r.Err? <==> base < 0)
            && (r.Ok? ==> |r.value| == (if base < |table| then |table| - base else 0))
            && (r.Ok? ==> forall i :: base <= i < |table| ==>
                  (CP.Signature(table[i]) !in offsets ==> r.value[i - base] == 0xFFFF) &&
                  (CP.Signature(table[i]) in offsets ==> r.value[i - base] == offsets[CP.Signature(table[i])]))
  {
    var r := VirtualTable(table, base, offsets);
    if r.Ok? {
      forall i | base <= i < |table|
        ensures r.value[i - base] == MethodOffsetOr(offsets, table[i])
      {
        assert table[base + (i - base)] == table[i];
      }
    }
  }

  /** A table loop of the constructor: from `base` to the end of the table, one offset per method. */
  method ComputeVirtualTable(table: seq<MethodRef>, base: int, offsets: map<string, int>) returns (r: Result<seq<int>>)
    ensures r == VirtualTable(table, base, offsets)
  {
    var entries: seq<int> := [];
    var idx := base;
    while idx < |table|
      invariant base <= idx && (idx > base ==> base >= 0 && idx <= |table|)
      invariant idx == base || idx <= |table|
      invariant |entries| == idx - base
      invariant forall j :: 0 <= j < |entries| ==> entries[j] == MethodOffsetOr(offsets, table[base + j])
    {
      if idx < 0 {
        return Err("IndexOutOfBoundsException");
      }
      var sig := CP.Signature(table[idx]);
      if sig in offsets {
        entries := entries + [offsets[sig]];
      } else {
        entries := entries + [0xFFFF];
      }
      idx := idx + 1;
    }
    if base < 0 {
      return Err("IndexOutOfBoundsException");
    }
    ghost var expected := VirtualTable(table, base, offsets).value;
    assert |entries| == |expected|;
    assert forall j :: 0 <= j < |entries| ==> entries[j] == expected[j];
    assert entries == expected;
    return Ok(entries);
  }

  // ---------------------------------------------------------------- implemented interfaces

  /**
   * The reference to an implemented interface: the tokens of an imported one, else
   * the offset of the first object with its name, unset when none has it. A missing
   * name fails as soon as there is an object to compare it with.
   */
  function ImplementedRef(objs: seq<Object>, r: ClassRef): (res: Result<Option<D.ClassRefInfo>>)
  {
    if r.hasToken then Ok(Some(CP.ExternalClass(r.packageToken, r.classToken)))
    else if r.name.None? then (if objs == [] then Ok(None) else Err("NullPointerException"))
    else if IndexOfName(objs, r.name) < |objs| then Ok(Some(D.InternalRef(OffsetOfName(objs, r.name))))
    else Ok(None)
  }

  /** The implemented interface records: one per implemented interface, in order. */
  function ImplementedInfos(objs: seq<Object>, its: seq<ImplementedInterface>): (r: Result<seq<ImplementedInterfaceInfo>>)
  {
    if its == [] then Ok([])
    else
      var prev :- ImplementedInfos(objs, its[..|its| - 1]);
      var it := its[|its| - 1];
      var ref :- ImplementedRef(objs, it.iface);
      Ok(prev + [ImplementedInterfaceInfo(ref, ToByte(|it.implementedMethods|), it.implementedMethods)])
  }

  /** The bytes of the implemented interface records: a reference, a count, then one byte per index. */
  function ImplementedSize(its: seq<ImplementedInterfaceInfo>): int
  {
    if its == [] then 0 else ImplementedSize(its[..|its| - 1]) + 3 + |its[|its| - 1].index|
  }

  /**
   * The records keep each interface's method indices, with the count as a byte;
   * they fail only on a nameless internal interface, and take the bytes the
   * class record size counts for them.
   */
  lemma {:induction false} ImplementedInfosMeaning(objs: seq<Object>, its: seq<ImplementedInterface>)
    ensures var r := ImplementedInfos(objs, its);
            && (r.Ok? ==> |r.value| == |its| && ImplementedSize(r.value) == InterfacesSize(its))
            && (r.Ok? ==> forall k :: 0 <= k < |its| ==>
                  r.value[k].index == its[k].implementedMethods && r.value[k].count == ToByte(|its[k].implementedMethods|))
  {
    if its != [] {
      var init := its[..|its| - 1];
      ImplementedInfosMeaning(objs, init);
      var r := ImplementedInfos(objs, its);
      if r.Ok? {
        var prev := ImplementedInfos(objs, init).value;
        var last := r.value[|r.value| - 1];
        assert r.value == prev + [last];
        assert r.value[..|r.value| - 1] == prev;
        assert last.index == its[|its| - 1].implementedMethods;
        forall k | 0 <= k < |its|
          ensures r.value[k].index == its[k].implementedMethods
          ensures r.value[k].count == ToByte(|its[k].implementedMethods|)
        {
          if k < |init| {
            assert init[k] == its[k] && r.value[k] == prev[k];
          }
        }
      }
    }
  }

  /** The search of one implemented interface: sum the record sizes until an object has its name. */
  method FindImplemented(objs: seq<Object>, r: ClassRef) returns (res: Result<Option<D.ClassRefInfo>>)
    ensures res == ImplementedRef(objs, r)
  {
    if r.hasToken {
      return Ok(Some(D.ExternalRef(ExternalPackage(r.packageToken), ToByte(r.classToken))));
    }
    var offset := 0;
    var k := 0;
    while k < |objs|
      invariant 0 <= k <= |objs| && offset == OffsetBefore(objs, k)
      invariant forall i :: 0 <= i < k ==> Some(objs[i].name) != r.name
      invariant k > 0 ==> r.name.Some?
    {
      if r.name.None? {
        return Err("NullPointerException");
      }
      if r.name.value == objs[k].name {
        assert IndexOfName(objs, r.name) == k;
        return Ok(Some(D.InternalRef(offset)));
      }
      offset := offset + ClassSize(objs[k]);
      k := k + 1;
    }
    assert IndexOfName(objs, r.name) == |objs|;
    return Ok(None);
  }

  /** The interface loop of the constructor. */
  method ComputeImplemented(objs: seq<Object>, its: seq<ImplementedInterface>)
    returns (r: Result<seq<ImplementedInterfaceInfo>>)
    ensures r == ImplementedInfos(objs, its)
  {
    var infos: seq<ImplementedInterfaceInfo> := [];
    var k := 0;
    while k < |its|
      invariant 0 <= k <= |its| && ImplementedInfos(objs, its[..k]) == Ok(infos)
    {
      assert its[..k + 1][..k] == its[..k];
      var ref := FindImplemented(objs, its[k].iface);
      if ref.Err? {
        assert its[..k + 1][k] == its[k];
        ImplementedInfosErr(objs, its, k + 1);
        return Err(ref.message);
      }
      infos := infos + [ImplementedInterfaceInfo(ref.value, ToByte(|its[k].implementedMethods|),
                                                 its[k].implementedMethods)];
      k := k + 1;
    }
    assert its[..|its|] == its;
    return Ok(infos);
  }

  /** An internal interface reference without a name. */
  predicate Nameless(it: ImplementedInterface)
  {
    !it.iface.hasToken && it.iface.name.None?
  }

  /** The records fail exactly when some internal interface has no name and there is an object to compare it with. */
  lemma {:induction false} ImplementedInfosRefused(objs: seq<Object>, its: seq<ImplementedInterface>)
    ensures ImplementedInfos(objs, its).Err? <==> objs != [] && exists k :: 0 <= k < |its| && Nameless(its[k])
  {
    if its != [] {
      var init := its[..|its| - 1];
      ImplementedInfosRefused(objs, init);
      if exists k :: 0 <= k < |init| && Nameless(init[k]) {
        var k :| 0 <= k < |init| && Nameless(init[k]);
        assert Nameless(its[k]);
      }
      if exists k :: 0 <= k < |its| && Nameless(its[k]) {
        var k :| 0 <= k < |its| && Nameless(its[k]);
        if k < |init| {
          assert Nameless(init[k]);
        }
      }
    }
  }

  /** Once a prefix of the interfaces fails, all of them fail the same way. */
  lemma {:induction false} ImplementedInfosErr(objs: seq<Object>, its: seq<ImplementedInterface>, n: int)
    requires 0 <= n <= |its| && ImplementedInfos(objs, its[..n]).Err?
    ensures ImplementedInfos(objs, its) == ImplementedInfos(objs, its[..n])
  {
    if n < |its| {
      var init := its[..|its| - 1];
      assert init[..n] == its[..n];
      ImplementedInfosErr(objs, init, n);
    } else {
      assert its[..n] == its;
    }
  }

  // ---------------------------------------------------------------- records

  /**
   * `ClassInfoFromJCA`: the bitfield, the superclass, the instance layout, the two
   * virtual method tables and the implemented interfaces of a class.
   */
  function ClassInfoOf(objs: seq<Object>, o: Object, offsets: map<string, int>): (r: Result<ClassInfo>)
    requires o.Class?
  {
    var pub :- VirtualTable(o.publicTable, o.publicBase, offsets);
    var pkg :- VirtualTable(o.packageTable, o.packageBase, offsets);
    var its :- ImplementedInfos(objs, o.interfaces);
    Ok(ClassInfo(ClassBitfield(o), SuperClassRef(objs, o), ToByte(InstanceSize(o.fields)),
                 FirstReferenceToken(o.fields), ToByte(ReferenceCount(o.fields)),
                 o.publicBase, ToByte(|pub|), pub, o.packageBase, ToByte(|pkg|), pkg, its))
  }

  /**
   * A class is refused exactly when one of its table bases is negative, or when an
   * internal implemented interface has no name and there is an object to compare it with.
   */
  lemma ClassInfoRefused(objs: seq<Object>, o: Object, offsets: map<string, int>)
    requires o.Class?
    ensures ClassInfoOf(objs, o, offsets).Err? <==>
              o.publicBase < 0 || o.packageBase < 0 ||
              (objs != [] && exists k :: 0 <= k < |o.interfaces| && Nameless(o.interfaces[k]))
  {
    ImplementedInfosRefused(objs, o.interfaces);
  }

  /** `ClassInfoFromJCA`'s constructor, step by step as the converter takes them. */
  method NewClassInfo(objs: seq<Object>, o: Object, offsets: map<string, int>) returns (r: Result<ClassInfo>)
    requires o.Class?
    ensures r == ClassInfoOf(objs, o, offsets)
  {
    var flags := ToByte((if o.isShareable then ACC_SHAREABLE else 0) * 16 + |o.interfaces| % 16);
    var super := ComputeSuperClassRef(objs, o);
    var size, first, count := ComputeInstanceLayout(o.fields);
    var pub := ComputeVirtualTable(o.publicTable, o.publicBase, offsets);
    if pub.Err? {
      return Err(pub.message);
    }
    var pkg := ComputeVirtualTable(o.packageTable, o.packageBase, offsets);
    if pkg.Err? {
      return Err(pkg.message);
    }
    var its := ComputeImplemented(objs, o.interfaces);
    if its.Err? {
      return Err(its.message);
    }
    return Ok(ClassInfo(flags, super, size, first, count, o.publicBase, ToByte(|pub.value|), pub.value,
                        o.packageBase, ToByte(|pkg.value|), pkg.value, its.value));
  }

  /** `InterfaceInfoFromJCA`: the bitfield and one reference per superinterface, in order. */
  function InterfaceInfoOf(objs: seq<Object>, oi: int): (r: InterfaceInfo)
    requires 0 <= oi < |objs| && objs[oi].Interface?
  {
    InterfaceInfo(InterfaceBitfield(objs[oi]), D.InterfaceRefs(objs, oi))
  }

  /** As written: an internal superinterface reference is the offset of the interface being converted. */
  function InterfaceInfoAsWritten(objs: seq<Object>, oi: int): (r: InterfaceInfo)
    requires 0 <= oi < |objs| && objs[oi].Interface?
  {
    var o := objs[oi];
    InterfaceInfo(InterfaceBitfield(o),
                  seq(|o.superInterfaces|, k requires 0 <= k < |o.superInterfaces| =>
                        D.InterfaceRefAsWritten(objs, o.name, o.superInterfaces[k])))
  }

  /**
   * With distinct names, an internal superinterface reference points at the record
   * of the superinterface it names; an imported one carries its package token with
   * the high bit set.
   */
  lemma SuperInterfacesLocated(objs: seq<Object>, oi: int, k: int, j: int)
    requires 0 <= oi < |objs| && objs[oi].Interface? && 0 <= k < |objs[oi].superInterfaces| && 0 <= j < |objs|
    requires forall a, b :: 0 <= a < b < |objs| ==> objs[a].name != objs[b].name
    ensures |InterfaceInfoOf(objs, oi).superInterfaces| == |objs[oi].superInterfaces|
    ensures var s := objs[oi].superInterfaces[k];
            !s.hasToken && s.name == Some(objs[j].name) ==>
              InterfaceInfoOf(objs, oi).superInterfaces[k] == D.InternalRef(OffsetBefore(objs, j))
    ensures var s := objs[oi].superInterfaces[k];
            s.hasToken ==> InterfaceInfoOf(objs, oi).superInterfaces[k].packageToken >= 0x80
  {
    var s := objs[oi].superInterfaces[k];
    if !s.hasToken && s.name == Some(objs[j].name) {
      D.InterfaceRefLocated(objs, s, j);
    }
  }

  /**
   * An interface `J` of the package extending the interface `I` laid out before it:
   * as written `J`'s superinterface reference is `J`'s own offset, not `I`'s.
   */
  lemma SuperInterfaceSelfAsWritten()
    ensures var i := Interface(true, false, false, "I", false, 0, PUBLIC, [], [], []);
            var j := Interface(true, false, false, "J", false, 1, PUBLIC, [], [], [ClassRef(Some("I"), false, 0, 0)]);
            && InterfaceInfoAsWritten([i, j], 1).superInterfaces == [D.InternalRef(1)]
            && InterfaceInfoOf([i, j], 1).superInterfaces == [D.InternalRef(0)]
  {
    var i := Interface(true, false, false, "I", false, 0, PUBLIC, [], [], []);
    var j := Interface(true, false, false, "J", false, 1, PUBLIC, [], [], [ClassRef(Some("I"), false, 0, 0)]);
    var objs := [i, j];
    OwnNameFound(objs, 0);
    OwnNameFound(objs, 1);
    assert IndexOfName(objs, Some("J")) == 1;
    assert OffsetBefore(objs, 1) == ClassSize(i) == 1;
  }

  /** `InterfaceInfoFromJCA`'s constructor. */
  method NewInterfaceInfo(objs: seq<Object>, oi: int) returns (r: InterfaceInfo)
    requires 0 <= oi < |objs| && objs[oi].Interface?
    ensures r == InterfaceInfoOf(objs, oi)
  {
    var o := objs[oi];
    var flags := ACC_INTERFACE;
    if o.isShareable {
      flags := flags + ACC_SHAREABLE;
    }
    var supers := D.InterfaceRefsOf(objs, oi);
    return InterfaceInfo(ToByte(flags * 16 + |o.superInterfaces| % 16), supers);
  }

  // ---------------------------------------------------------------- record sizes

  /** `ClassInfoFromJCA.computeComponentSize`, before its 16-bit cast. */
  function ClassInfoSize(c: ClassInfo): int
  {
    CLASS_RECORD_FIXED + 2 * |c.publicTable| + 2 * |c.packageTable| + ImplementedSize(c.interfaces)
  }

  /** `InterfaceInfoFromJCA.computeComponentSize`, before its 16-bit cast: the bitfield and 2 bytes per superinterface. */
  function InterfaceInfoSize(i: InterfaceInfo): int
  {
    1 + 2 * |i.superInterfaces|
  }

  /** The bytes a table base past the end of its table takes away from `classSize`. */
  function Excess(table: seq<MethodRef>, base: int): int
  {
    if base > |table| then base - |table| else 0
  }

  /**
   * A class record is as long as `classSize` says, except that `classSize` counts a
   * table whose base is past its end as negative where the record holds no entry.
   */
  lemma ClassInfoSizeAgrees(objs: seq<Object>, o: Object, offsets: map<string, int>)
    requires o.Class?
    ensures var r := ClassInfoOf(objs, o, offsets);
            r.Ok? ==> ClassInfoSize(r.value) ==
                        ClassSize(o) + 2 * Excess(o.publicTable, o.publicBase) + 2 * Excess(o.packageTable, o.packageBase)
  {
    ImplementedInfosMeaning(objs, o.interfaces);
  }

  /** An interface record is as long as `classSize` says. */
  lemma InterfaceInfoSizeAgrees(objs: seq<Object>, oi: int)
    requires 0 <= oi < |objs| && objs[oi].Interface?
    ensures InterfaceInfoSize(InterfaceInfoOf(objs, oi)) == ClassSize(objs[oi])
  {
  }

  /** `ClassInfoFromJCA.computeComponentSize`: the fixed part and the tables, then each implemented interface. */
  method ComputeClassInfoSize(c: ClassInfo) returns (s: int)
    ensures s == ToShort(ClassInfoSize(c))
  {
    var total := CLASS_RECORD_FIXED + 2 * |c.publicTable| + 2 * |c.packageTable|;
    var k := 0;
    while k < |c.interfaces|
      invariant 0 <= k <= |c.interfaces|
      invariant total == CLASS_RECORD_FIXED + 2 * |c.publicTable| + 2 * |c.packageTable| + ImplementedSize(c.interfaces[..k])
    {
      assert c.interfaces[..k + 1][..k] == c.interfaces[..k];
      total := total + 3 + |c.interfaces[k].index|;
      k := k + 1;
    }
    assert c.interfaces[..|c.interfaces|] == c.interfaces;
    s := ToShort(total);
  }

  // ---------------------------------------------------------------- the component

  /** The record of object `k`; only a class can fail. */
  function RecordOf(objs: seq<Object>, k: int, offsets: map<string, int>): (r: Result<Record>)
    requires 0 <= k < |objs|
  {
    if objs[k].Interface? then Ok(InterfaceRecord(InterfaceInfoOf(objs, k)))
    else var c :- ClassInfoOf(objs, objs[k], offsets); Ok(ClassRecord(c))
  }

  /** One iteration of the constructor's loop: the record of object `k`, then its class descriptor. */
  function ObjectStep(objs: seq<Object>, image: seq<Cell<Field>>, md: D.MethodData, k: int, t: D.TypeTable)
    : Result<(Record, D.ClassDescriptorInfo, D.TypeTable)>
    requires 0 <= k < |objs|
  {
    var rec :- RecordOf(objs, k, md.offsets);
    var desc :- D.ClassDescriptorOf(objs, k, image, md, t);
    Ok((rec, desc.0, desc.1))
  }

  /** A loop iteration, from an object index and the type table before it. */
  type Step = (int, D.TypeTable) -> Result<(Record, D.ClassDescriptorInfo, D.TypeTable)>

  /** The converter's iteration, as a `Step`; an index past the objects has no object to convert. */
  function ObjectSteps(objs: seq<Object>, image: seq<Cell<Field>>, md: D.MethodData): Step
  {
    (k: int, t: D.TypeTable) =>
      if 0 <= k < |objs| then ObjectStep(objs, image, md, k, t) else Err("IndexOutOfBoundsException")
  }

  /**
   * The first `n` iterations of a loop: the interface records, the class records, the
   * class descriptors (after `classes0`) and the type table; the first failing
   * iteration ends it.
   */
  function Fold(step: Step, classes0: seq<D.ClassDescriptorInfo>, t: D.TypeTable, n: nat)
    : (r: Result<(seq<InterfaceInfo>, seq<ClassInfo>, seq<D.ClassDescriptorInfo>, D.TypeTable)>)
  {
    if n == 0 then Ok(([], [], classes0, t))
    else
      var prev :- Fold(step, classes0, t, n - 1);
      var s :- step(n - 1, prev.3);
      match s.0
      case InterfaceRecord(i) => Ok((prev.0 + [i], prev.1, prev.2 + [s.1], s.2))
      case ClassRecord(c) => Ok((prev.0, prev.1 + [c], prev.2 + [s.1], s.2))
  }

  /** The first `n` iterations of the constructor's loop. */
  function ComponentBefore(objs: seq<Object>, image: seq<Cell<Field>>, md: D.MethodData,
                           classes0: seq<D.ClassDescriptorInfo>, t: D.TypeTable, n: int)
    : (r: Result<(seq<InterfaceInfo>, seq<ClassInfo>, seq<D.ClassDescriptorInfo>, D.TypeTable)>)
    requires 0 <= n <= |objs|
  {
    Fold(ObjectSteps(objs, image, md), classes0, t, n)
  }

  function InterfaceInfosSize(ifs: seq<InterfaceInfo>): int
  {
    if ifs == [] then 0 else InterfaceInfosSize(ifs[..|ifs| - 1]) + InterfaceInfoSize(ifs[|ifs| - 1])
  }

  function ClassInfosSize(cs: seq<ClassInfo>): int
  {
    if cs == [] then 0 else ClassInfosSize(cs[..|cs| - 1]) + ClassInfoSize(cs[|cs| - 1])
  }

  /** The size of the component's records, before the 16-bit cast. */
  function RecordsSize(ifs: seq<InterfaceInfo>, cs: seq<ClassInfo>): int
  {
    InterfaceInfosSize(ifs) + ClassInfosSize(cs)
  }

  /** No table base of the first `n` classes is past the end of its table. */
  predicate BasesInTables(objs: seq<Object>, n: int)
    requires 0 <= n <= |objs|
  {
    forall i :: 0 <= i < n && objs[i].Class? ==>
      objs[i].publicBase <= |objs[i].publicTable| && objs[i].packageBase <= |objs[i].packageTable|
  }

  /** One iteration, unfolded. */
  lemma FoldNext(step: Step, classes0: seq<D.ClassDescriptorInfo>, t: D.TypeTable, n: nat,
                 ifs: seq<InterfaceInfo>, cs: seq<ClassInfo>, ds: seq<D.ClassDescriptorInfo>, t1: D.TypeTable)
    requires Fold(step, classes0, t, n) == Ok((ifs, cs, ds, t1))
    ensures step(n, t1).Err? ==> Fold(step, classes0, t, n + 1).Err?
    ensures step(n, t1).Ok? && step(n, t1).value.0.InterfaceRecord? ==>
              Fold(step, classes0, t, n + 1) ==
                Ok((ifs + [step(n, t1).value.0.iface], cs, ds + [step(n, t1).value.1], step(n, t1).value.2))
    ensures step(n, t1).Ok? && step(n, t1).value.0.ClassRecord? ==>
              Fold(step, classes0, t, n + 1) ==
                Ok((ifs, cs + [step(n, t1).value.0.info], ds + [step(n, t1).value.1], step(n, t1).value.2))
  {
  }

  /** Once an iteration fails, every longer loop fails. */
  lemma {:induction false} FoldErr(step: Step, classes0: seq<D.ClassDescriptorInfo>, t: D.TypeTable, n: nat, k: nat)
    requires n <= k && Fold(step, classes0, t, n).Err?
    ensures Fold(step, classes0, t, k).Err?
  {
    if k > n {
      FoldErr(step, classes0, t, n, k - 1);
    }
  }

  /** The record each object index yields. */
  type Records = int -> Result<Record>

  /** The records of `objs`, by index; an index past the objects has no record. */
  function RecordsOf(objs: seq<Object>, offsets: map<string, int>): Records
  {
    (k: int) => if 0 <= k < |objs| then RecordOf(objs, k, offsets) else Err("IndexOutOfBoundsException")
  }

  /** The interface records among the first `n` records, in order. */
  function Interfaces(rec: Records, n: nat): seq<InterfaceInfo>
  {
    if n == 0 then []
    else if rec(n - 1).Ok? && rec(n - 1).value.InterfaceRecord? then Interfaces(rec, n - 1) + [rec(n - 1).value.iface]
    else Interfaces(rec, n - 1)
  }

  /** The class records among the first `n` records, in order; the first failing record fails them. */
  function Classes(rec: Records, n: nat): Result<seq<ClassInfo>>
  {
    if n == 0 then Ok([])
    else
      var prev :- Classes(rec, n - 1);
      var r :- rec(n - 1);
      match r
      case InterfaceRecord(_) => Ok(prev)
      case ClassRecord(c) => Ok(prev + [c])
  }

  /** The class records fail exactly when one of the first `n` records does. */
  lemma {:induction false} ClassesRefused(rec: Records, n: nat)
    ensures Classes(rec, n).Err? <==> exists k :: 0 <= k < n && rec(k).Err?
  {
    if n > 0 {
      ClassesRefused(rec, n - 1);
      if exists k :: 0 <= k < n && rec(k).Err? {
        var k :| 0 <= k < n && rec(k).Err?;
        if k < n - 1 {
          assert Classes(rec, n - 1).Err?;
        }
      }
    }
  }

  /** Every iteration of `step` among the first `n` yields the record `rec` gives, and fails when that record does. */
  ghost predicate Yields(rec: Records, step: Step, n: nat)
  {
    forall k, t :: 0 <= k < n ==>
      (step(k, t).Ok? ==> rec(k) == Ok(step(k, t).value.0)) && (rec(k).Err? ==> step(k, t).Err?)
  }

  /** The converter's iteration yields each object's record. */
  lemma ObjectStepsYield(objs: seq<Object>, image: seq<Cell<Field>>, md: D.MethodData)
    ensures Yields(RecordsOf(objs, md.offsets), ObjectSteps(objs, image, md), |objs|)
  {
  }

  /**
   * A loop whose iterations yield the records keeps the interface records and the
   * class records in order, and fails when a record fails.
   */
  lemma {:induction false} FoldRecords(rec: Records, step: Step, classes0: seq<D.ClassDescriptorInfo>,
                                       t: D.TypeTable, n: nat)
    requires Yields(rec, step, n)
    ensures var r := Fold(step, classes0, t, n);
            && (Classes(rec, n).Err? ==> r.Err?)
            && (r.Ok? ==> r.value.0 == Interfaces(rec, n) && Classes(rec, n) == Ok(r.value.1))
  {
    if n > 0 {
      assert Yields(rec, step, n - 1);
      FoldRecords(rec, step, classes0, t, n - 1);
      var prev := Fold(step, classes0, t, n - 1);
      if prev.Ok? {
        var p := prev.value;
        FoldNext(step, classes0, t, n - 1, p.0, p.1, p.2, p.3);
      }
    }
  }

  /** A loop adds one class descriptor per iteration, after the ones already there. */
  lemma {:induction false} FoldDescriptors(step: Step, classes0: seq<D.ClassDescriptorInfo>, t: D.TypeTable, n: nat)
    ensures var r := Fold(step, classes0, t, n);
            r.Ok? ==> |r.value.2| == |classes0| + n && r.value.2[..|classes0|] == classes0
  {
    if n > 0 {
      FoldDescriptors(step, classes0, t, n - 1);
      var prev := Fold(step, classes0, t, n - 1);
      if prev.Ok? {
        var p := prev.value;
        FoldNext(step, classes0, t, n - 1, p.0, p.1, p.2, p.3);
        var r := Fold(step, classes0, t, n);
        if r.Ok? {
          assert r.value.2[..|classes0|] == p.2[..|classes0|];
        }
      }
    }
  }

  /** The bytes of one record. */
  function RecordSize(r: Record): int
  {
    match r
    case InterfaceRecord(i) => InterfaceInfoSize(i)
    case ClassRecord(c) => ClassInfoSize(c)
  }

  /** A record of object `k` whose class has no table base past its table is as long as `classSize` says. */
  lemma RecordSizeAgrees(objs: seq<Object>, offsets: map<string, int>, k: int)
    requires 0 <= k < |objs| && RecordOf(objs, k, offsets).Ok?
    requires objs[k].Class? ==> objs[k].publicBase <= |objs[k].publicTable| && objs[k].packageBase <= |objs[k].packageTable|
    ensures RecordSize(RecordOf(objs, k, offsets).value) == ClassSize(objs[k])
  {
    if objs[k].Interface? {
      InterfaceInfoSizeAgrees(objs, k);
    } else {
      ClassInfoSizeAgrees(objs, objs[k], offsets);
    }
  }

  lemma InterfaceInfosSizeSnoc(ifs: seq<InterfaceInfo>, i: InterfaceInfo)
    ensures InterfaceInfosSize(ifs + [i]) == InterfaceInfosSize(ifs) + InterfaceInfoSize(i)
  {
    assert (ifs + [i])[..|ifs|] == ifs;
  }

  lemma ClassInfosSizeSnoc(cs: seq<ClassInfo>, c: ClassInfo)
    ensures ClassInfosSize(cs + [c]) == ClassInfosSize(cs) + ClassInfoSize(c)
  {
    assert (cs + [c])[..|cs|] == cs;
  }

  /**
   * Records each as long as `classSize` says for its object take, together, the offset
   * past the last of them: the bytes the offsets of the other components assume.
   */
  lemma {:induction false} RecordsSizeSum(objs: seq<Object>, rec: Records, n: nat)
    requires n <= |objs| && Classes(rec, n).Ok?
    requires forall k :: 0 <= k < n && rec(k).Ok? ==> RecordSize(rec(k).value) == ClassSize(objs[k])
    ensures RecordsSize(Interfaces(rec, n), Classes(rec, n).value) == OffsetBefore(objs, n)
  {
    if n > 0 {
      RecordsSizeSum(objs, rec, n - 1);
      var ifs := Interfaces(rec, n - 1);
      var cs := Classes(rec, n - 1).value;
      assert RecordsSize(ifs, cs) == OffsetBefore(objs, n - 1);
      assert RecordSize(rec(n - 1).value) == ClassSize(objs[n - 1]);
      match rec(n - 1).value
      case InterfaceRecord(i) =>
        assert Interfaces(rec, n) == ifs + [i] && Classes(rec, n) == Ok(cs);
        InterfaceInfosSizeSnoc(ifs, i);
      case ClassRecord(c) =>
        assert Interfaces(rec, n) == ifs && Classes(rec, n) == Ok(cs + [c]);
        ClassInfosSizeSnoc(cs, c);
    }
  }

  /**
   * The constructor's loop keeps the records in declaration order, is refused when a
   * class is, adds one class descriptor per object, and, with no table base past its
   * table, makes the component exactly as long as the class offsets assume.
   */
  lemma ComponentMeaning(objs: seq<Object>, image: seq<Cell<Field>>, md: D.MethodData,
                         classes0: seq<D.ClassDescriptorInfo>, t: D.TypeTable)
    ensures var r := ComponentBefore(objs, image, md, classes0, t, |objs|);
            var rec := RecordsOf(objs, md.offsets);
            && ((exists k :: 0 <= k < |objs| && RecordOf(objs, k, md.offsets).Err?) ==> r.Err?)
            && (r.Ok? ==> r.value.0 == Interfaces(rec, |objs|) && Classes(rec, |objs|) == Ok(r.value.1))
            && (r.Ok? ==> |r.value.2| == |classes0| + |objs| && r.value.2[..|classes0|] == classes0)
            && (r.Ok? && BasesInTables(objs, |objs|) ==> RecordsSize(r.value.0, r.value.1) == OffsetBefore(objs, |objs|))
  {
    var rec := RecordsOf(objs, md.offsets);
    ObjectStepsYield(objs, image, md);
    FoldRecords(rec, ObjectSteps(objs, image, md), classes0, t, |objs|);
    FoldDescriptors(ObjectSteps(objs, image, md), classes0, t, |objs|);
    ClassesRefused(rec, |objs|);
    if exists k :: 0 <= k < |objs| && RecordOf(objs, k, md.offsets).Err? {
      var k :| 0 <= k < |objs| && RecordOf(objs, k, md.offsets).Err?;
      assert rec(k).Err?;
    }
    if BasesInTables(objs, |objs|) && Classes(rec, |objs|).Ok? {
      forall k | 0 <= k < |objs| && rec(k).Ok?
        ensures RecordSize(rec(k).value) == ClassSize(objs[k])
      {
        RecordSizeAgrees(objs, md.offsets, k);
      }
      RecordsSizeSum(objs, rec, |objs|);
    }
  }

  /** A record added to the component's lists, and its size to the 16-bit total. */
  method AddRecord(ifs: seq<InterfaceInfo>, cs: seq<ClassInfo>, total: int, r: Record)
    returns (ifs': seq<InterfaceInfo>, cs': seq<ClassInfo>, total': int)
    requires total == ToShort(RecordsSize(ifs, cs))
    ensures r.InterfaceRecord? ==> ifs' == ifs + [r.iface] && cs' == cs
    ensures r.ClassRecord? ==> ifs' == ifs && cs' == cs + [r.info]
    ensures total' == ToShort(RecordsSize(ifs', cs'))
  {
    match r {
      case InterfaceRecord(i) =>
        InterfaceInfosSizeSnoc(ifs, i);
        ShortAdd(RecordsSize(ifs, cs), InterfaceInfoSize(i));
        ifs', cs' := ifs + [i], cs;
        total' := ToShort(total + ToShort(1 + 2 * |i.superInterfaces|));
      case ClassRecord(c) =>
        ClassInfosSizeSnoc(cs, c);
        ShortAdd(RecordsSize(ifs, cs), ClassInfoSize(c));
        var recordSize := ComputeClassInfoSize(c);
        ifs', cs' := ifs, cs + [c];
        total' := ToShort(total + recordSize);
    }
  }

  /** The class component: its interface records, its class records and its size. */
  class ClassComponent {
    var interfaces: seq<InterfaceInfo>
    var classes: seq<ClassInfo>
    var size: int

    constructor ()
      ensures interfaces == [] && classes == [] && size == 0
    {
      interfaces := [];
      classes := [];
      size := 0;
    }

    /**
     * One iteration of the constructor's loop: the record of object `k`, then its class
     * descriptor added to the descriptor component.
     */
    method ConvertObject(objs: seq<Object>, k: int, image: seq<Cell<Field>>, md: D.MethodData,
                         d: D.DescriptorComponent) returns (r: Result<Record>)
      requires 0 <= k < |objs| && d.Valid()
      modifies d`typeDesc, d`offsetDesc, d`fieldDescriptorInfos, d`methodDescriptorInfos, d`classes
      ensures d.Valid()
      ensures var s := ObjectSteps(objs, image, md)(k, old(d.Types()));
              && (r.Err? <==> s.Err?)
              && (r.Ok? ==> r.value == s.value.0 && d.classes == old(d.classes) + [s.value.1] && d.Types() == s.value.2)
    {
      var rec: Record;
      if objs[k].Interface? {
        var i := NewInterfaceInfo(objs, k);
        rec := InterfaceRecord(i);
      } else {
        var c := NewClassInfo(objs, objs[k], md.offsets);
        if c.Err? {
          return Err(c.message);
        }
        rec := ClassRecord(c.value);
      }
      var desc := d.AddClassDescriptor(objs, k, image, md);
      if desc.Err? {
        return Err(desc.message);
      }
      return Ok(rec);
    }

    /** One iteration of the constructor's loop, as one more step of the loop's specification. */
    method Iterate(objs: seq<Object>, k: int, image: seq<Cell<Field>>, md: D.MethodData, d: D.DescriptorComponent,
                   ghost classes0: seq<D.ClassDescriptorInfo>, ghost t0: D.TypeTable,
                   ifs: seq<InterfaceInfo>, cs: seq<ClassInfo>) returns (r: Result<Record>)
      requires 0 <= k < |objs| && d.Valid()
      requires ComponentBefore(objs, image, md, classes0, t0, k) == Ok((ifs, cs, d.classes, d.Types()))
      modifies d`typeDesc, d`offsetDesc, d`fieldDescriptorInfos, d`methodDescriptorInfos, d`classes
      ensures d.Valid()
      ensures r.Err? ==> ComponentBefore(objs, image, md, classes0, t0, |objs|).Err?
      ensures r.Ok? && r.value.InterfaceRecord? ==>
                ComponentBefore(objs, image, md, classes0, t0, k + 1) == Ok((ifs + [r.value.iface], cs, d.classes, d.Types()))
      ensures r.Ok? && r.value.ClassRecord? ==>
                ComponentBefore(objs, image, md, classes0, t0, k + 1) == Ok((ifs, cs + [r.value.info], d.classes, d.Types()))
    {
      ghost var step := ObjectSteps(objs, image, md);
      FoldNext(step, classes0, t0, k, ifs, cs, d.classes, d.Types());
      r := ConvertObject(objs, k, image, md, d);
      if r.Err? {
        FoldErr(step, classes0, t0, k + 1, |objs|);
      }
    }

    /**
     * `ClassComponentFromJCA`'s constructor: for each object in order, its record, then
     * its class descriptor; the size is the 16-bit sum of the record sizes.
     */
    method Convert(objs: seq<Object>, image: seq<Cell<Field>>, md: D.MethodData, d: D.DescriptorComponent)
      returns (r: Result<()>)
      requires d.Valid()
      modifies this, d`typeDesc, d`offsetDesc, d`fieldDescriptorInfos, d`methodDescriptorInfos, d`classes
      ensures d.Valid()
      ensures var p := ComponentBefore(objs, image, md, old(d.classes), old(d.Types()), |objs|);
              && (r.Err? <==> p.Err?)
              && (r.Ok? ==> interfaces == p.value.0 && classes == p.value.1 && d.classes == p.value.2 &&
                            d.Types() == p.value.3 && size == ToShort(RecordsSize(interfaces, classes)))
    {
      ghost var classes0 := d.classes;
      ghost var t0 := d.Types();
      var ifs: seq<InterfaceInfo> := [];
      var cs: seq<ClassInfo> := [];
      var total := 0;
      var k := 0;
      while k < |objs|
        invariant 0 <= k <= |objs| && d.Valid()
        invariant ComponentBefore(objs, image, md, classes0, t0, k) == Ok((ifs, cs, d.classes, d.Types()))
        invariant total == ToShort(RecordsSize(ifs, cs))
      {
        var rec := Iterate(objs, k, image, md, d, classes0, t0, ifs, cs);
        if rec.Err? {
          return Err(rec.message);
        }
        ifs, cs, total := AddRecord(ifs, cs, total, rec.value);
        k := k + 1;
      }
      interfaces := ifs;
      classes := cs;
      size := total;
      return Ok(());
    }

    /** `computeComponentSize`: the interface records, then the class records, as a 16-bit sum. */
    method ComputeComponentSize() returns (s: int)
      ensures s == ToShort(RecordsSize(interfaces, classes))
    {
      s := 0;
      var k := 0;
      while k < |interfaces|
        invariant 0 <= k <= |interfaces| && s == ToShort(InterfaceInfosSize(interfaces[..k]))
      {
        assert interfaces[..k + 1] == interfaces[..k] + [interfaces[k]];
        InterfaceInfosSizeSnoc(interfaces[..k], interfaces[k]);
        ShortAdd(InterfaceInfosSize(interfaces[..k]), InterfaceInfoSize(interfaces[k]));
        s := ToShort(s + ToShort(1 + 2 * |interfaces[k].superInterfaces|));
        k := k + 1;
      }
      assert interfaces[..|interfaces|] == interfaces;
      k := 0;
      while k < |classes|
        invariant 0 <= k <= |classes| && s == ToShort(InterfaceInfosSize(interfaces) + ClassInfosSize(classes[..k]))
      {
        assert classes[..k + 1] == classes[..k] + [classes[k]];
        ClassInfosSizeSnoc(classes[..k], classes[k]);
        ShortAdd(InterfaceInfosSize(interfaces) + ClassInfosSize(classes[..k]), ClassInfoSize(classes[k]));
        var recordSize := ComputeClassInfoSize(classes[k]);
        s := ToShort(s + recordSize);
        k := k + 1;
      }
      assert classes[..|classes|] == classes;
    }
  }
}
