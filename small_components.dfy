/**
 * The small components of a CAP file (Java Card 2.1 Virtual Machine Specification,
 * chapter 6): the header (section 6.3) with its package info, the applet component
 * (section 6.5), the import component (section 6.6) and the directory component
 * (section 6.4) with its static field size info.
 */
module Components {
  import opened Wrappers
  import opened Bytes
  import opened Jca
  import opened Opcodes
  import SF = StaticField

  // ---------------------------------------------------------------- package info

  /** A package's versions and AID, as the header and the import component list it. */
  datatype PackageInfo = PackageInfo(minorVersion: int, majorVersion: int, aidLength: int, aid: seq<int>)

  /** `PackageInfoFromJCA`: the versions and the AID with its length as a byte. */
  function PackageInfoOf(p: Package): (r: PackageInfo)
    ensures r.aid == p.aid && r.aidLength == ToByte(|p.aid|)
  {
    PackageInfo(ToByte(p.minorVersion), ToByte(p.majorVersion), ToByte(|p.aid|), p.aid)
  }

  /** `computeComponentSize`: two version bytes, the length byte and the AID, the length read as a Java byte. */
  function PackageInfoSize(pi: PackageInfo): int
  {
    ToShort(3 + SignedByte(ToByte(pi.aidLength)))
  }

  /** A package info takes three bytes besides its AID, for any AID of fewer than 128 bytes. */
  lemma PackageInfoSizeMeaning(p: Package)
    requires |p.aid| < 128
    ensures PackageInfoSize(PackageInfoOf(p)) == 3 + |p.aid|
  {
  }

  // ---------------------------------------------------------------- header

  const MAGIC: int := 0xDECAFFED
  const CAP_MAJOR_VERSION: int := 2
  const CAP_MINOR_VERSION: int := 1
  const ACC_INT: int := 0x01
  const ACC_EXPORT: int := 0x02
  const ACC_APPLET: int := 0x04

  /** The opcodes `methodBytecodeHasInt` counts as using the int type. */
  const IntOpcodes: set<Opcode> :=
    {I2B, I2S, S2I, IAND, IOR, IADD, IDIV, IMUL, IALOAD, IASTORE, ICMP,
     GETFIELD_I, GETFIELD_I_THIS, GETFIELD_I_W, PUTFIELD_I, PUTFIELD_I_THIS, PUTFIELD_I_W,
     GETSTATIC_I, PUTSTATIC_I, ICONST_M1, ICONST_0, ICONST_1, ICONST_2, ICONST_3, ICONST_4, ICONST_5,
     IIPUSH, BIPUSH, SIPUSH, ILOAD, ILOAD_0, ILOAD_1, ILOAD_2, ILOAD_3,
     ISTORE, ISTORE_0, ISTORE_1, ISTORE_2, ISTORE_3, IINC, IINC_W, INEG, IREM, IRETURN,
     ISHL, ISHR, ISUB, IUSHR, IXOR, ITABLESWITCH, ILOOKUPSWITCH}

  /** A signature whose return type or some parameter type is int. */
  predicate IntSignature(sig: MethodSignature)
  {
    sig.returnType.kind == INT || exists i :: 0 <= i < |sig.parameters| && sig.parameters[i].kind == INT
  }

  /** A body with some instruction of the int opcodes. */
  predicate IntCode(code: Bytecodes)
  {
    exists i :: 0 <= i < |code.instructions| && code.instructions[i].opcode in IntOpcodes
  }

  /** A method using int: in its signature, or in its body when it has one (neither native nor abstract). */
  predicate IntMethod(m: Method)
  {
    IntSignature(m.signature) || (!m.signature.isNative && !m.signature.isAbstract && IntCode(m.code))
  }

  /** An object with an int field or a method using int. */
  predicate IntObject(o: Object)
  {
    (exists i :: 0 <= i < |o.fields| && o.fields[i].ftype.kind == INT) ||
    (exists i :: 0 <= i < |o.methods| && IntMethod(o.methods[i]))
  }

  /** A package needing the int type: some object of it uses int. */
  predicate UsesInt(objs: seq<Object>)
  {
    exists i :: 0 <= i < |objs| && IntObject(objs[i])
  }

  /** `methodSignatureHasInt`. */
  method SignatureHasInt(sig: MethodSignature) returns (b: bool)
    ensures b <==> IntSignature(sig)
  {
    if sig.returnType.kind == INT {
      return true;
    }
    var k := 0;
    while k < |sig.parameters|
      invariant 0 <= k <= |sig.parameters|
      invariant forall j :: 0 <= j < k ==> sig.parameters[j].kind != INT
    {
      if sig.parameters[k].kind == INT {
        return true;
      }
      k := k + 1;
    }
    return false;
  }

  /** `methodBytecodeHasInt`. */
  method BytecodeHasInt(code: Bytecodes) returns (b: bool)
    ensures b <==> IntCode(code)
  {
    var k := 0;
    while k < |code.instructions|
      invariant 0 <= k <= |code.instructions|
      invariant forall j :: 0 <= j < k ==> code.instructions[j].opcode !in IntOpcodes
    {
      if code.instructions[k].opcode in IntOpcodes {
        return true;
      }
      k := k + 1;
    }
    return false;
  }

  /** `fieldsAreInt`. */
  method FieldsAreInt(o: Object) returns (b: bool)
    ensures b <==> exists i :: 0 <= i < |o.fields| && o.fields[i].ftype.kind == INT
  {
    var k := 0;
    while k < |o.fields|
      invariant 0 <= k <= |o.fields|
      invariant forall j :: 0 <= j < k ==> o.fields[j].ftype.kind != INT
    {
      if o.fields[k].ftype.kind == INT {
        return true;
      }
      k := k + 1;
    }
    return false;
  }

  /** `methodsHaveInt`: the signature first, then the body of a method that has one. */
  method MethodsHaveInt(o: Object) returns (b: bool)
    ensures b <==> exists i :: 0 <= i < |o.methods| && IntMethod(o.methods[i])
  {
    var k := 0;
    while k < |o.methods|
      invariant 0 <= k <= |o.methods|
      invariant forall j :: 0 <= j < k ==> !IntMethod(o.methods[j])
    {
      var m := o.methods[k];
      var inSignature := SignatureHasInt(m.signature);
      if inSignature {
        return true;
      }
      if !m.signature.isNative && !m.signature.isAbstract {
        var inCode := BytecodeHasInt(m.code);
        if inCode {
          return true;
        }
      }
      k := k + 1;
    }
    return false;
  }

  /** `hasInt`: whether some object of the package uses int. */
  method HasInt(objs: seq<Object>) returns (b: bool)
    ensures b <==> UsesInt(objs)
  {
    var k := 0;
    while k < |objs|
      invariant 0 <= k <= |objs|
      invariant forall j :: 0 <= j < k ==> !IntObject(objs[j])
    {
      var fields := FieldsAreInt(objs[k]);
      if fields {
        return true;
      }
      var methods := MethodsHaveInt(objs[k]);
      if methods {
        return true;
      }
      k := k + 1;
    }
    return false;
  }

  /** The header flags: export when there is an export component, applet when an applet is declared, int when int is used. */
  function HeaderFlags(hasExport: bool, applets: Option<seq<AppletEntry>>, usesInt: bool): int
  {
    (if hasExport then ACC_EXPORT else 0) +
    (if applets.Some? && |applets.value| != 0 then ACC_APPLET else 0) +
    (if usesInt then ACC_INT else 0)
  }

  /** Each flag bit is set exactly when its condition holds, and no other bit is. */
  lemma HeaderFlagsMeaning(hasExport: bool, applets: Option<seq<AppletEntry>>, usesInt: bool)
    ensures var f := HeaderFlags(hasExport, applets, usesInt);
            && 0 <= f < 8
            && (f % 2 == 1 <==> usesInt)
            && ((f / 2) % 2 == 1 <==> hasExport)
            && ((f / 4) % 2 == 1 <==> applets.Some? && |applets.value| != 0)
  {
  }

  datatype HeaderComponent = HeaderComponent(magic: int, minorVersion: int, majorVersion: int, flags: int,
                                             thePackage: PackageInfo, size: int)

  /** `computeComponentSize`: the magic, the two versions, the flags and the package info. */
  function HeaderSize(pi: PackageInfo): int
  {
    ToShort(4 + 2 + 1 + PackageInfoSize(pi))
  }

  /** The header of a package whose AID has fewer than 128 bytes takes ten bytes besides the AID. */
  lemma HeaderSizeMeaning(jca: JcaFile)
    requires |jca.aid| < 128
    ensures HeaderSize(PackageInfoOf(Package(jca.aid, jca.majorVersion, jca.minorVersion))) == 10 + |jca.aid|
  {
  }

  /** `HeaderComponentFromJCA`'s constructor. */
  method BuildHeader(hasExport: bool, jca: JcaFile) returns (h: HeaderComponent)
    ensures h.magic == MAGIC && h.majorVersion == CAP_MAJOR_VERSION && h.minorVersion == CAP_MINOR_VERSION
    ensures h.flags == HeaderFlags(hasExport, jca.applets, UsesInt(jca.classes))
    ensures h.thePackage == PackageInfoOf(Package(jca.aid, jca.majorVersion, jca.minorVersion))
    ensures h.size == HeaderSize(h.thePackage)
  {
    var flags := 0;
    if hasExport {
      flags := flags + ACC_EXPORT;
    }
    if jca.applets.Some? && |jca.applets.value| != 0 {
      flags := flags + ACC_APPLET;
    }
    var usesInt := HasInt(jca.classes);
    if usesInt {
      flags := flags + ACC_INT;
    }
    var pi := PackageInfoOf(Package(jca.aid, jca.majorVersion, jca.minorVersion));
    h := HeaderComponent(MAGIC, CAP_MINOR_VERSION, CAP_MAJOR_VERSION, flags, pi, HeaderSize(pi));
  }

  // ---------------------------------------------------------------- applet component

  /** One applet: its AID and the offset of its `install` method. */
  datatype CapApplet = CapApplet(aidLength: int, aid: seq<int>, installMethodOffset: int)

  /** The full name under which an applet class's `install` method is recorded. */
  function InstallName(className: string): string
  {
    className + "/install([BBSB)V"
  }

  /** `CapAppletFromJCA`: the applet's AID and its `install` method's offset; an applet class without one fails. */
  function CapAppletOf(e: AppletEntry, offsets: map<string, int>, packageName: string): Result<CapApplet>
  {
    if InstallName(e.className) in offsets
    then Ok(CapApplet(ToByte(|e.aid|), e.aid, ToShort(offsets[InstallName(e.className)])))
    else Err("Install method not found in the " + packageName + " package")
  }

  /** The applets of the first `n` entries, stopping at the first one that fails. */
  function CapApplets(es: seq<AppletEntry>, offsets: map<string, int>, packageName: string, n: int)
    : Result<seq<CapApplet>>
    requires 0 <= n <= |es|
  {
    if n == 0 then Ok([])
    else
      var prev :- CapApplets(es, offsets, packageName, n - 1);
      var a :- CapAppletOf(es[n - 1], offsets, packageName);
      Ok(prev + [a])
  }

  /**
   * The applets fail exactly when some applet class has no `install` method; otherwise
   * there is one applet per entry with the entry's AID and its `install` offset.
   */
  lemma {:induction false} CapAppletsMeaning(es: seq<AppletEntry>, offsets: map<string, int>, packageName: string, n: int)
    requires 0 <= n <= |es|
    ensures var r := CapApplets(es, offsets, packageName, n);
            && (r.Err? <==> exists i :: 0 <= i < n && InstallName(es[i].className) !in offsets)
            && (r.Ok? ==> |r.value| == n)
            && (r.Ok? ==> forall i :: 0 <= i < n ==>
                  && r.value[i].aid == es[i].aid && r.value[i].aidLength == ToByte(|es[i].aid|)
                  && InstallName(es[i].className) in offsets
                  && r.value[i].installMethodOffset == ToShort(offsets[InstallName(es[i].className)]))
  {
    if n > 0 {
      CapAppletsMeaning(es, offsets, packageName, n - 1);
    }
  }

  /** Once a prefix of the entries fails, every longer one fails the same way. */
  lemma {:induction false} CapAppletsErr(es: seq<AppletEntry>, offsets: map<string, int>, packageName: string,
                                         n: int, k: int)
    requires 0 <= n <= k <= |es| && CapApplets(es, offsets, packageName, n).Err?
    ensures CapApplets(es, offsets, packageName, k) == CapApplets(es, offsets, packageName, n)
  {
    if k > n {
      CapAppletsErr(es, offsets, packageName, n, k - 1);
    }
  }

  datatype AppletComponent = AppletComponent(count: int, applets: seq<CapApplet>, size: int)

  /** The bytes of the applets: a length byte, the AID and the 2-byte offset each, the length read as a Java byte. */
  function AppletsBytes(apps: seq<CapApplet>): int
  {
    if apps == [] then 0 else AppletsBytes(apps[..|apps| - 1]) + AppletBytes(apps[|apps| - 1])
  }

  function AppletBytes(a: CapApplet): int
  {
    1 + SignedByte(ToByte(a.aidLength)) + 2
  }

  /** Three 16-bit additions in a row are one. */
  lemma ShortAdd3(total: int, a: int, b: int, c: int)
    ensures ToShort(ToShort(ToShort(ToShort(total) + a) + b) + c) == ToShort(total + a + b + c)
  {
    ShortAdd(total, a);
    ShortAdd(total + a, b);
    ShortAdd(total + a + b, c);
  }

  /** `computeComponentSize`: nothing when the count byte is 0, else the count byte and the applets. */
  function AppletSize(count: int, apps: seq<CapApplet>): int
  {
    if count == 0 then 0 else ToShort(1 + AppletsBytes(apps))
  }

  /** The applets' bytes are their AIDs and three bytes each, for AIDs of fewer than 128 bytes. */
  lemma {:induction false} AppletsBytesMeaning(apps: seq<CapApplet>)
    requires forall i :: 0 <= i < |apps| ==> apps[i].aidLength == |apps[i].aid| < 128
    ensures AppletsBytes(apps) >= 3 * |apps|
    ensures AppletsBytes(apps) == 3 * |apps| + AidBytes(apps)
  {
    if apps != [] {
      AppletsBytesMeaning(apps[..|apps| - 1]);
    }
  }

  /** The total length of the applets' AIDs. */
  function AidBytes(apps: seq<CapApplet>): (r: int)
    ensures r >= 0
  {
    if apps == [] then 0 else AidBytes(apps[..|apps| - 1]) + |apps[|apps| - 1].aid|
  }

  /** The size loop of `computeComponentSize`, after the count test. */
  method ComputeAppletSize(count: int, apps: seq<CapApplet>) returns (size: int)
    ensures size == AppletSize(count, apps)
  {
    if count == 0 {
      return 0;
    }
    size := 1;
    var k := 0;
    while k < |apps|
      invariant 0 <= k <= |apps| && size == ToShort(1 + AppletsBytes(apps[..k]))
    {
      assert apps[..k + 1][..k] == apps[..k];
      var aidLength := SignedByte(ToByte(apps[k].aidLength));
      ShortAdd3(1 + AppletsBytes(apps[..k]), 1, aidLength, 2);
      size := ToShort(size + 1);
      size := ToShort(size + aidLength);
      size := ToShort(size + 2);
      k := k + 1;
    }
    assert apps[..|apps|] == apps;
  }

  /** `AppletComponentFromJCA`'s constructor: one applet per declared entry, none when the package declares none. */
  method BuildApplet(jca: JcaFile, offsets: map<string, int>) returns (r: Result<AppletComponent>)
    ensures var es := if jca.applets.Some? then jca.applets.value else [];
            var p := CapApplets(es, offsets, jca.name, |es|);
            && (r.Err? <==> p.Err?)
            && (r.Ok? ==> r.value.applets == p.value && r.value.count == ToByte(|p.value|) &&
                          r.value.size == AppletSize(r.value.count, r.value.applets))
  {
    var es := if jca.applets.Some? then jca.applets.value else [];
    var applets: seq<CapApplet> := [];
    var k := 0;
    while k < |es|
      invariant 0 <= k <= |es| && CapApplets(es, offsets, jca.name, k) == Ok(applets)
    {
      var a := CapAppletOf(es[k], offsets, jca.name);
      if a.Err? {
        CapAppletsErr(es, offsets, jca.name, k + 1, |es|);
        return Err(a.message);
      }
      applets := applets + [a.value];
      k := k + 1;
    }
    var count := ToByte(|applets|);
    var size := ComputeAppletSize(count, applets);
    return Ok(AppletComponent(count, applets, size));
  }

  /**
   * A built applet component is empty exactly when no applet is declared, and
   * otherwise holds a count byte and each applet's AID with three more bytes.
   */
  lemma AppletComponentMeaning(jca: JcaFile, offsets: map<string, int>)
    requires var es := if jca.applets.Some? then jca.applets.value else [];
             && |es| < 256
             && (forall i :: 0 <= i < |es| ==> |es[i].aid| < 128)
             && CapApplets(es, offsets, jca.name, |es|).Ok?
    ensures var es := if jca.applets.Some? then jca.applets.value else [];
            var apps := CapApplets(es, offsets, jca.name, |es|).value;
            && (ToByte(|apps|) == 0 <==> es == [])
            && (es == [] ==> AppletSize(ToByte(|apps|), apps) == 0)
            && (es != [] && 1 + 3 * |apps| + AidBytes(apps) < 65536 ==>
                  AppletSize(ToByte(|apps|), apps) == 1 + 3 * |apps| + AidBytes(apps))
  {
    var es := if jca.applets.Some? then jca.applets.value else [];
    CapAppletsMeaning(es, offsets, jca.name, |es|);
    var apps := CapApplets(es, offsets, jca.name, |es|).value;
    AppletsBytesMeaning(apps);
  }

  // ---------------------------------------------------------------- import component

  datatype ImportComponent = ImportComponent(count: int, packages: seq<PackageInfo>, size: int)

  /** The package infos of the imported packages, in order. */
  function PackageInfos(ps: seq<Package>): (r: seq<PackageInfo>)
    ensures |r| == |ps| && forall i :: 0 <= i < |ps| ==> r[i] == PackageInfoOf(ps[i])
  {
    if ps == [] then [] else PackageInfos(ps[..|ps| - 1]) + [PackageInfoOf(ps[|ps| - 1])]
  }

  /** The total size of the package infos. */
  function PackageInfosSize(pis: seq<PackageInfo>): int
  {
    if pis == [] then 0 else PackageInfosSize(pis[..|pis| - 1]) + PackageInfoSize(pis[|pis| - 1])
  }

  /** `computeComponentSize`: the count byte and the package infos, in 16 bits. */
  function ImportSize(pis: seq<PackageInfo>): int
  {
    ToShort(1 + PackageInfosSize(pis))
  }

  /** The size loop of `computeComponentSize`. */
  method ComputeImportSize(pis: seq<PackageInfo>) returns (size: int)
    ensures size == ImportSize(pis)
  {
    size := 1;
    var k := 0;
    while k < |pis|
      invariant 0 <= k <= |pis| && size == ToShort(1 + PackageInfosSize(pis[..k]))
    {
      assert pis[..k + 1][..k] == pis[..k];
      ShortAdd(1 + PackageInfosSize(pis[..k]), PackageInfoSize(pis[k]));
      size := ToShort(size + PackageInfoSize(pis[k]));
      k := k + 1;
    }
    assert pis[..|pis|] == pis;
  }

  /** `ImportComponentFromJCA`'s constructor: one package info per imported package; no imports gives a bare count. */
  method BuildImport(imports: Option<seq<Package>>) returns (c: ImportComponent)
    ensures imports.None? ==> c == ImportComponent(0, [], 1)
    ensures imports.Some? ==> c.packages == PackageInfos(imports.value) && c.count == ToByte(|imports.value|) &&
                              c.size == ImportSize(c.packages)
  {
    if imports.None? {
      return ImportComponent(0, [], ToByte(ImportSize([])));
    }
    var ps := imports.value;
    var pis: seq<PackageInfo> := [];
    var k := 0;
    while k < |ps|
      invariant 0 <= k <= |ps| && pis == PackageInfos(ps[..k])
    {
      assert ps[..k + 1][..k] == ps[..k];
      pis := pis + [PackageInfoOf(ps[k])];
      k := k + 1;
    }
    assert ps[..|ps|] == ps;
    var size := ComputeImportSize(pis);
    c := ImportComponent(ToByte(|pis|), pis, size);
  }

  /** The total length of the imported AIDs. */
  function ImportedAidBytes(ps: seq<Package>): (r: int)
    ensures r >= 0
  {
    if ps == [] then 0 else ImportedAidBytes(ps[..|ps| - 1]) + |ps[|ps| - 1].aid|
  }

  /** The import component holds a count byte, then three bytes and the AID per package, when that fits in 16 bits. */
  lemma {:induction false} ImportSizeMeaning(ps: seq<Package>)
    requires forall i :: 0 <= i < |ps| ==> |ps[i].aid| < 128
    requires 1 + 3 * |ps| + ImportedAidBytes(ps) < 65536
    ensures ImportSize(PackageInfos(ps)) == 1 + 3 * |ps| + ImportedAidBytes(ps)
  {
    InfosSize(ps);
  }

  lemma {:induction false} InfosSize(ps: seq<Package>)
    requires forall i :: 0 <= i < |ps| ==> |ps[i].aid| < 128
    ensures PackageInfosSize(PackageInfos(ps)) == 3 * |ps| + ImportedAidBytes(ps)
  {
    if ps != [] {
      var init := ps[..|ps| - 1];
      InfosSize(init);
      assert PackageInfos(ps)[..|ps| - 1] == PackageInfos(init);
    }
  }

  // ---------------------------------------------------------------- directory component

  /** The number of component sizes in the directory of a format 2.1 CAP file. */
  const COMPONENT_NUMBER_21: int := 11

  /** The component tags of format 2.1 (section 6.1 of the Java Card 2.1 Virtual Machine Specification). */
  const TAG_HEADER: int := 1
  const TAG_DIRECTORY: int := 2
  const TAG_APPLET: int := 3
  const TAG_IMPORT: int := 4
  const TAG_CONSTANT_POOL: int := 5
  const TAG_CLASS: int := 6
  const TAG_METHOD: int := 7
  const TAG_STATIC_FIELD: int := 8
  const TAG_REFERENCE_LOCATION: int := 9
  const TAG_EXPORT: int := 10
  const TAG_DESCRIPTOR: int := 11

  /** The static field component's sizes, as the directory repeats them. */
  datatype StaticFieldSizeInfo = StaticFieldSizeInfo(imageSize: int, arrayInitCount: int, arrayInitSize: int)

  /** The total element count of the array initializers, in 16 bits. */
  function ArrayInitSize(ais: seq<SF.ArrayInitInfo>): int
  {
    if ais == [] then 0 else ToShort(ArrayInitSize(ais[..|ais| - 1]) + ais[|ais| - 1].count)
  }

  /** The plain total element count of the array initializers. */
  function ArrayInitCounts(ais: seq<SF.ArrayInitInfo>): int
  {
    if ais == [] then 0 else ArrayInitCounts(ais[..|ais| - 1]) + ais[|ais| - 1].count
  }

  /** `array_init_size` is the total element count of the initializers, kept to 16 bits. */
  lemma {:induction false} ArrayInitSizeMeaning(ais: seq<SF.ArrayInitInfo>)
    ensures ArrayInitSize(ais) == ToShort(ArrayInitCounts(ais))
  {
    if ais != [] {
      ArrayInitSizeMeaning(ais[..|ais| - 1]);
      ShortAdd(ArrayInitCounts(ais[..|ais| - 1]), ais[|ais| - 1].count);
    }
  }

  /** `StaticFieldUtilsInfoFromJCA`'s constructor: the image size, the initializer count and the summed element counts. */
  method BuildStaticFieldSizeInfo(c: SF.StaticFieldComponent) returns (info: StaticFieldSizeInfo)
    ensures info == StaticFieldSizeInfo(c.imageSize, c.arrayInitCount, ArrayInitSize(c.arrayInit))
  {
    var total := 0;
    var k := 0;
    while k < |c.arrayInit|
      invariant 0 <= k <= |c.arrayInit| && total == ArrayInitSize(c.arrayInit[..k])
    {
      assert c.arrayInit[..k + 1][..k] == c.arrayInit[..k];
      total := ToShort(total + c.arrayInit[k].count);
      k := k + 1;
    }
    assert c.arrayInit[..|c.arrayInit|] == c.arrayInit;
    info := StaticFieldSizeInfo(c.imageSize, c.arrayInitCount, total);
  }

  /** Three shorts. */
  const STATIC_FIELD_SIZE_INFO_SIZE: int := 6

  datatype DirectoryComponent = DirectoryComponent(componentSizes: seq<int>, staticFieldSize: StaticFieldSizeInfo,
                                                   importCount: int, appletCount: int, customCount: int,
                                                   size: int)

  /** The sizes of the components a directory lists, the optional ones absent when the package has none. */
  datatype ComponentSizes = ComponentSizes(header: int, applet: Option<int>, imports: Option<int>, constantPool: int,
                                           classes: int, methods: int, staticField: int, referenceLocation: int,
                                           exports: Option<int>, descriptor: Option<int>)

  function SizeOr0(s: Option<int>): int
  {
    if s.Some? then s.value else 0
  }

  /** `computeComponentSize`: the sizes, the static field size info and the three count bytes. */
  function DirectorySize(): int
  {
    ToShort(COMPONENT_NUMBER_21 * 2 + STATIC_FIELD_SIZE_INFO_SIZE + 1 + 1 + 1)
  }

  /**
   * `DirectoryComponentFromJCA`'s constructor: the sizes in tag order with 0 for the
   * directory itself and for an absent component, the import and applet counts (0 for
   * an absent component), no custom component.
   */
  function DirectoryOf(sizes: ComponentSizes, staticField: StaticFieldSizeInfo,
                       importCount: Option<int>, appletCount: Option<int>): DirectoryComponent
  {
    DirectoryComponent([sizes.header, 0, SizeOr0(sizes.applet), SizeOr0(sizes.imports), sizes.constantPool,
                        sizes.classes, sizes.methods, sizes.staticField, sizes.referenceLocation,
                        SizeOr0(sizes.exports), SizeOr0(sizes.descriptor)],
                       staticField, SizeOr0(importCount), SizeOr0(appletCount), 0, DirectorySize())
  }

  /**
   * The directory lists one size per component of format 2.1, the size of the
   * component tagged `t` at position `t - 1`, and takes 31 bytes.
   */
  lemma DirectoryMeaning(sizes: ComponentSizes, staticField: StaticFieldSizeInfo,
                         importCount: Option<int>, appletCount: Option<int>)
    ensures var d := DirectoryOf(sizes, staticField, importCount, appletCount);
            && |d.componentSizes| == COMPONENT_NUMBER_21
            && d.componentSizes[TAG_HEADER - 1] == sizes.header
            && d.componentSizes[TAG_DIRECTORY - 1] == 0
            && d.componentSizes[TAG_APPLET - 1] == (if sizes.applet.Some? then sizes.applet.value else 0)
            && d.componentSizes[TAG_IMPORT - 1] == (if sizes.imports.Some? then sizes.imports.value else 0)
            && d.componentSizes[TAG_CONSTANT_POOL - 1] == sizes.constantPool
            && d.componentSizes[TAG_CLASS - 1] == sizes.classes
            && d.componentSizes[TAG_METHOD - 1] == sizes.methods
            && d.componentSizes[TAG_STATIC_FIELD - 1] == sizes.staticField
            && d.componentSizes[TAG_REFERENCE_LOCATION - 1] == sizes.referenceLocation
            && d.componentSizes[TAG_EXPORT - 1] == (if sizes.exports.Some? then sizes.exports.value else 0)
            && d.componentSizes[TAG_DESCRIPTOR - 1] == (if sizes.descriptor.Some? then sizes.descriptor.value else 0)
            && d.customCount == 0 && d.size == 31
  {
  }
}
