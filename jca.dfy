/**
 * The parsed Java Card assembly package (the JCA data holders) as values, with
 * the few operations those holders carry: type rendering and equality, AID
 * rendering, exception-range inclusion, instruction size and class record size.
 */
module Jca {
  import opened Wrappers
  import opened Bytes
  import opened Opcodes

  datatype Kind = BOOLEAN | BYTE | SHORT | INT | VOID | REFERENCE

  datatype Accessor = PUBLIC | PRIVATE | PROTECTED | PACKAGE

  /**
   * A class reference: a class of this package, named, or a class of an imported
   * package, given by its package and class tokens (`hasToken`).
   */
  datatype ClassRef = ClassRef(name: Option<string>, hasToken: bool, packageToken: int, classToken: int)

  /** A field, parameter or return type; a reference type also carries its class reference. */
  datatype JType = JType(kind: Kind, isArray: bool, ref: ClassRef)

  /** A field; `initValues` is empty when the field has no initializer. */
  datatype Field = Field(accessor: Accessor, isFinal: bool, isStatic: bool, ftype: JType, name: string,
                         initValues: seq<int>, hasToken: bool, fieldToken: int)

  /** Where a class named in a signature lives: its package and class tokens. */
  datatype Descriptor = Descriptor(className: string, packageToken: int, classToken: int)

  datatype MethodSignature = MethodSignature(isAbstract: bool, isFinal: bool, isNative: bool, name: string,
                                             parameters: seq<JType>, returnType: JType,
                                             descriptors: seq<Descriptor>)

  /** An exception handler; its three offsets are indices into the method's label list. */
  datatype Handler = Handler(startLabel: int, endLabel: int, handlerLabel: int, catchTypeIndex: int)

  /**
   * The label operands a switch instruction keeps beside its bytes: the default
   * label and, for `slookupswitch`, the match/label pairs as an ordered map
   * (ascending by match value, one entry per match value); for `itableswitch`,
   * the bounds and the label of each case in order.
   */
  datatype SwitchLabels =
    | NoLabels
    | LookupLabels(defaultLabel: int, npair: int, pairs: seq<(int, int)>)
    | TableLabels(defaultLabel: int, low: int, high: int, caseLabels: seq<int>)

  /** An instruction: its opcode, its encoded parameter bytes and, for a switch, its labels. */
  datatype Instruction = Instruction(opcode: Opcode, parameters: seq<int>, switchLabels: SwitchLabels)

  /** A method body; `labels[k]` is the index of the instruction that label `k` marks. */
  datatype Bytecodes = Bytecodes(maxStack: int, maxLocals: int, instructions: seq<Instruction>,
                                 labels: seq<int>, handlers: seq<Handler>)

  datatype Method = Method(accessor: Accessor, isStatic: bool, hasToken: bool, token: int,
                           signature: MethodSignature, code: Bytecodes)

  datatype MethodKind = STATIC_METHOD | VIRTUAL_METHOD | SUPER_METHOD

  /**
   * A method named in the constant pool or a virtual method table: internal
   * (`hasToken` false, `methodName` is `class/name`) or external (by tokens).
   * `kind` is absent for the entries of a virtual method table.
   */
  datatype MethodRef = MethodRef(methodName: string, hasToken: bool, packageToken: int, classToken: int,
                                 methodToken: int, parameters: seq<JType>, returnType: JType,
                                 kind: Option<MethodKind>, descriptors: seq<Descriptor>)

  /** A field named in the constant pool, internal by name or external by tokens. */
  datatype FieldRef = FieldRef(ftype: JType, name: string, hasToken: bool, packageToken: int,
                               classToken: int, fieldToken: int)

  datatype ImplementedInterface = ImplementedInterface(iface: ClassRef, implementedMethods: seq<int>)

  /** A class or an interface of the package. */
  datatype Object =
    | Class(isAbstract: bool, isShareable: bool, isRemote: bool, name: string, hasToken: bool, token: int,
            accessor: Accessor, fields: seq<Field>, methods: seq<Method>,
            isFinal: bool, publicBase: int, publicTable: seq<MethodRef>,
            packageBase: int, packageTable: seq<MethodRef>, superClass: Option<ClassRef>,
            interfaces: seq<ImplementedInterface>)
    | Interface(isAbstract: bool, isShareable: bool, isRemote: bool, name: string, hasToken: bool, token: int,
                accessor: Accessor, fields: seq<Field>, methods: seq<Method>,
                superInterfaces: seq<ClassRef>)

  datatype CPEntry =
    | CPClass(classRef: ClassRef)
    | CPInstanceField(fieldRef: FieldRef)
    | CPStaticField(fieldRef: FieldRef)
    | CPMethod(methodRef: MethodRef)
    | CPOther

  datatype Package = Package(aid: seq<int>, majorVersion: int, minorVersion: int)

  datatype AppletEntry = AppletEntry(aid: seq<int>, className: string)

  /** A whole assembly file; the optional components are absent when the file has none. */
  datatype JcaFile = JcaFile(name: string, aid: seq<int>, majorVersion: int, minorVersion: int,
                             imports: Option<seq<Package>>, applets: Option<seq<AppletEntry>>,
                             constantPool: Option<seq<CPEntry>>, classes: seq<Object>)

  /** The full name `name(params)ret` under which a method's offset is recorded. */
  function FullName(sig: MethodSignature): string
  {
    sig.name + "(" + TypeStrings(sig.parameters) + ")" + TypeString(sig.returnType)
  }

  function TypeStrings(ts: seq<JType>): string
  {
    if ts == [] then "" else TypeStrings(ts[..|ts| - 1]) + TypeString(ts[|ts| - 1])
  }

  // ---------------------------------------------------------------- JCAType

  function KindLetter(k: Kind): char
    requires k != REFERENCE
  {
    match k
    case BYTE => 'B'
    case BOOLEAN => 'Z'
    case SHORT => 'S'
    case INT => 'I'
    case VOID => 'V'
  }

  /** The text inside `L...;`: the class name, or `packageToken.classToken` printed as signed bytes. */
  function RefName(r: ClassRef): string
  {
    match r.name
    case Some(n) => n
    case None =>
      SignedDecimal(SignedByte(ToByte(r.packageToken))) + "." + SignedDecimal(SignedByte(ToByte(r.classToken)))
  }

  /** `JCAType.toString`: `[` for an array, then one letter, or `L<name>;` for a reference. */
  function TypeString(t: JType): (r: string)
    ensures |r| > 0
    ensures (r[0] == '[') <==> t.isArray
    ensures t.kind != REFERENCE ==> |r| == (if t.isArray then 2 else 1)
    ensures t.kind == REFERENCE ==> r[|r| - 1] == ';' && r[if t.isArray then 1 else 0] == 'L'
  {
    (if t.isArray then "[" else "") +
    (if t.kind == REFERENCE then "L" + RefName(t.ref) + ";" else [KindLetter(t.kind)])
  }

  /** `JCAType.prettyToString`: the Java type name, with `[]` appended for an array. */
  function PrettyString(t: JType): (r: string)
    ensures t.isArray ==> |r| >= 2 && r[|r| - 2..] == "[]"
    ensures !t.isArray && t.kind != REFERENCE ==> |r| > 0 && r[|r| - 1] != ']'
  {
    var base := match t.kind
      case BYTE => "byte"
      case BOOLEAN => "boolean"
      case SHORT => "short"
      case INT => "int"
      case VOID => "void"
      case REFERENCE => RefName(t.ref);
    if t.isArray then base + "[]" else base
  }

  /** `JCAType.equals`: two types are equal when their kinds and array flags are. */
  predicate SameType(a: JType, b: JType)
  {
    a.kind == b.kind && a.isArray == b.isArray
  }

  /** Equal renderings mean equal types: `toString` never confuses two kinds or array-ness. */
  lemma TypeStringFaithful(a: JType, b: JType)
    requires TypeString(a) == TypeString(b)
    ensures SameType(a, b)
  {
    var s := TypeString(a);
    var k := if a.isArray then 1 else 0;
    assert a.isArray == b.isArray;
    if a.kind == REFERENCE || b.kind == REFERENCE {
      assert s[k] == 'L';
    } else {
      assert s[k] == KindLetter(a.kind) == KindLetter(b.kind);
    }
  }

  /** `equals` ignores the class a reference type names. */
  lemma SameTypeIgnoresClass(t: JType, r: ClassRef)
    ensures SameType(t, t.(ref := r))
    ensures t.kind == REFERENCE && t.ref != r ==> t != t.(ref := r)
  {
  }

  // ---------------------------------------------------------------- AID

  /** The upper-case hexadecimal text of an AID, two digits per byte, high nibble first. */
  function AidHex(aid: seq<int>): (r: string)
    requires AllBytes(aid)
    ensures |r| == 2 * |aid|
  {
    if aid == [] then "" else AidHex(aid[..|aid| - 1]) + Hex2(aid[|aid| - 1])
  }

  lemma {:induction false} AidHexAt(aid: seq<int>, j: int)
    requires AllBytes(aid) && 0 <= j < |aid|
    ensures AidHex(aid)[2 * j] == HexDigit(aid[j] / 16)
    ensures AidHex(aid)[2 * j + 1] == HexDigit(aid[j] % 16)
    decreases |aid|
  {
    var init := aid[..|aid| - 1];
    var h, t := AidHex(init), Hex2(aid[|aid| - 1]);
    assert AidHex(aid) == h + t;
    if j < |aid| - 1 {
      AidHexAt(init, j);
      assert (h + t)[2 * j] == h[2 * j] && (h + t)[2 * j + 1] == h[2 * j + 1];
    } else {
      assert (h + t)[2 * j] == t[0] && (h + t)[2 * j + 1] == t[1];
    }
  }

  /** Reading the hexadecimal text back gives the AID bytes. */
  lemma AidHexDecodes(aid: seq<int>, j: int)
    requires AllBytes(aid) && 0 <= j < |aid|
    ensures HexValue(AidHex(aid)[2 * j]) * 16 + HexValue(AidHex(aid)[2 * j + 1]) == aid[j]
  {
    AidHexAt(aid, j);
    HexDigitValue(aid[j] / 16);
    HexDigitValue(aid[j] % 16);
  }

  /** One more byte appends its two digits. */
  lemma AidHexSnoc(aid: seq<int>, j: int)
    requires AllBytes(aid) && 0 <= j < |aid|
    ensures AidHex(aid[..j + 1]) == AidHex(aid[..j]) + Hex2(aid[j])
  {
    assert aid[..j + 1][..j] == aid[..j];
  }

  /** `AID.toString`: fills a character array two digits per byte. */
  method AidToString(aid: seq<int>) returns (r: string)
    requires AllBytes(aid)
    ensures r == AidHex(aid)
  {
    var chars := new char[2 * |aid|];
    var j := 0;
    while j < |aid|
      invariant 0 <= j <= |aid|
      invariant chars[..2 * j] == AidHex(aid[..j])
    {
      var v := aid[j];
      assert IsByte(v);
      ghost var done := chars[..2 * j];
      chars[2 * j] := HexDigit(v / 16);
      chars[2 * j + 1] := HexDigit(v % 16);
      assert chars[..2 * j + 2] == done + Hex2(v);
      AidHexSnoc(aid, j);
      j := j + 1;
    }
    assert aid[..j] == aid;
    r := chars[..];
  }

  // ---------------------------------------------------------------- exception handlers

  /** `JCAExceptionHandler.isIncludedIn`: this range lies within the other one. */
  predicate IsIncludedIn(h: Handler, other: Handler)
  {
    h.startLabel >= other.startLabel && h.endLabel <= other.endLabel
  }

  lemma IncludedReflexive(h: Handler)
    ensures IsIncludedIn(h, h)
  {
  }

  lemma IncludedTransitive(a: Handler, b: Handler, c: Handler)
    requires IsIncludedIn(a, b) && IsIncludedIn(b, c)
    ensures IsIncludedIn(a, c)
  {
  }

  /** Two ranges include each other exactly when they cover the same labels. */
  lemma IncludedAntisymmetric(a: Handler, b: Handler)
    ensures (IsIncludedIn(a, b) && IsIncludedIn(b, a)) <==>
            (a.startLabel == b.startLabel && a.endLabel == b.endLabel)
  {
  }

  // ---------------------------------------------------------------- instructions

  /** `Instruction.getInstructionSize`: the opcode byte and the parameter bytes. */
  function InstructionSize(i: Instruction): (r: int)
    ensures r >= 1
    ensures r - 1 == |i.parameters|
  {
    1 + |i.parameters|
  }

  /** `Instruction.setParameters`: the new list replaces the old one and the size follows it. */
  function SetParameters(i: Instruction, ps: seq<int>): (r: Instruction)
    ensures r.opcode == i.opcode && r.parameters == ps
    ensures InstructionSize(r) == InstructionSize(i) + |ps| - |i.parameters|
  {
    i.(parameters := ps)
  }

  /** The number of bytes taken by the first `n` instructions of a body. */
  function SizeBefore(code: seq<Instruction>, n: int): (r: int)
    requires 0 <= n <= |code|
    ensures r >= n
  {
    if n == 0 then 0 else SizeBefore(code, n - 1) + InstructionSize(code[n - 1])
  }

  /** The bytes of instructions `lo..hi-1`. */
  function SizeBetween(code: seq<Instruction>, lo: int, hi: int): (r: int)
    requires 0 <= lo <= hi <= |code|
    ensures r == SizeBefore(code, hi) - SizeBefore(code, lo)
    ensures r >= hi - lo
    decreases hi - lo
  {
    if lo == hi then 0 else SizeBetween(code, lo, hi - 1) + InstructionSize(code[hi - 1])
  }

  // ---------------------------------------------------------------- class records

  /**
   * The fixed part of a class record: a 1-byte bitfield, a 2-byte super_class_ref and
   * seven 1-byte fields (declared_instance_size, first_reference_token,
   * reference_count and the base and count of each virtual method table).
   */
  const CLASS_RECORD_FIXED: int := 1 + 2 + 7

  /**
   * `JCAClass.classSize`: the size of the class record this class becomes, computed
   * from its virtual method tables (less their bases) and its interface lists.
   */
  function ClassSize(o: Object): (r: int)
  {
    match o
    case Class(_, _, _, _, _, _, _, _, _, _, _, _, _, _, _, _) =>
      CLASS_RECORD_FIXED + 2 * (|o.publicTable| - o.publicBase) + 2 * (|o.packageTable| - o.packageBase)
      + InterfacesSize(o.interfaces)
    case Interface(_, _, _, _, _, _, _, _, _, _) =>
      1 + 2 * |o.superInterfaces|
  }

  /** Each implemented interface takes a 2-byte reference, a count byte and one byte per method index. */
  function InterfacesSize(its: seq<ImplementedInterface>): (r: int)
    ensures r >= 3 * |its|
  {
    if its == [] then 0 else InterfacesSize(its[..|its| - 1]) + 3 + |its[|its| - 1].implementedMethods|
  }

  /** The sum of the record sizes of the first `n` objects: the offset of object `n` in the class component. */
  function OffsetBefore(objs: seq<Object>, n: int): int
    requires 0 <= n <= |objs|
  {
    if n == 0 then 0 else OffsetBefore(objs, n - 1) + ClassSize(objs[n - 1])
  }

  /** The index of the first object called `name`, or the object count when none is; an absent name matches none. */
  function IndexOfName(objs: seq<Object>, name: Option<string>): (r: int)
    ensures 0 <= r <= |objs|
    ensures forall i :: 0 <= i < r ==> Some(objs[i].name) != name
    ensures r < |objs| ==> Some(objs[r].name) == name
  {
    if objs == [] || Some(objs[0].name) == name then 0
    else
      var r := 1 + IndexOfName(objs[1..], name);
      assert forall i :: 1 <= i < |objs| ==> objs[i] == objs[1..][i - 1];
      r
  }

  /** The offset of the record of the first object called `name`: the sizes of the objects before it. */
  function OffsetOfName(objs: seq<Object>, name: Option<string>): int
  {
    OffsetBefore(objs, IndexOfName(objs, name))
  }

  /** An object's own name finds it, or an earlier object of the same name. */
  lemma OwnNameFound(objs: seq<Object>, i: int)
    requires 0 <= i < |objs|
    ensures IndexOfName(objs, Some(objs[i].name)) <= i
    ensures (forall j :: 0 <= j < i ==> objs[j].name != objs[i].name) ==> IndexOfName(objs, Some(objs[i].name)) == i
  {
  }

  /**
   * The loop the converter repeats wherever it resolves an internal class reference:
   * add up `classSize` over the objects until one has the name.
   */
  method ClassOffset(objs: seq<Object>, name: Option<string>) returns (offset: int)
    ensures offset == OffsetOfName(objs, name)
  {
    offset := 0;
    var k := 0;
    while k < |objs| && Some(objs[k].name) != name
      invariant 0 <= k <= |objs| && offset == OffsetBefore(objs, k)
      invariant forall i :: 0 <= i < k ==> Some(objs[i].name) != name
    {
      offset := offset + ClassSize(objs[k]);
      k := k + 1;
    }
    assert k == IndexOfName(objs, name);
  }

  /** `s.lastIndexOf("/")`: the position of the last slash, or -1. */
  function LastSlash(s: string): (r: int)
    ensures -1 <= r < |s|
    ensures r >= 0 ==> s[r] == '/'
    ensures forall i :: r < i < |s| ==> s[i] != '/'
  {
    if s == [] then -1
    else if s[|s| - 1] == '/' then |s| - 1
    else LastSlash(s[..|s| - 1])
  }

  /** `s.substring(s.lastIndexOf("/") + 1)`: the text after the last slash, all of `s` without one. */
  function AfterLastSlash(s: string): (r: string)
    ensures '/' !in r && |r| <= |s| && r == s[|s| - |r|..]
  {
    s[LastSlash(s) + 1..]
  }

  /** The fields of all classes and interfaces of the package, object by object, in declaration order. */
  function AllFields(objs: seq<Object>): (r: seq<Field>)
    ensures forall i, j :: 0 <= i < |objs| && 0 <= j < |objs[i].fields| ==> objs[i].fields[j] in r
  {
    if objs == [] then []
    else
      var r := AllFields(objs[..|objs| - 1]) + objs[|objs| - 1].fields;
      assert forall i :: 0 <= i < |objs| - 1 ==> objs[i] == objs[..|objs| - 1][i];
      r
  }

  /** The record size of a class never depends on its fields, methods or flags. */
  lemma ClassSizeIgnoresMembers(o: Object, fs: seq<Field>, ms: seq<Method>, shareable: bool)
    ensures ClassSize(o.(fields := fs, methods := ms, isShareable := shareable)) == ClassSize(o)
  {
  }

  /** `JCAClass`'s constructor: package-visible, not shareable, not remote, with empty tables. */
  function NewClass(isAbstract: bool, isFinal: bool, name: string, hasToken: bool, token: int): (r: Object)
    ensures r.Class? && !r.isShareable && !r.isRemote && r.accessor == PACKAGE
    ensures r.name == name && r.isAbstract == isAbstract && r.isFinal == isFinal
    ensures r.publicTable == [] && r.packageTable == [] && r.interfaces == []
    ensures r.fields == [] && r.methods == []
    ensures ClassSize(r) == CLASS_RECORD_FIXED == 10
  {
    Class(isAbstract, false, false, name, hasToken, token, PACKAGE, [], [], isFinal, 0, [], 0, [], None, [])
  }

  /** `JCAInterface`'s constructor: the shareable and remote flags are kept, with no superinterface. */
  function NewInterface(isAbstract: bool, name: string, isShareable: bool, isRemote: bool,
                        hasToken: bool, token: int): (r: Object)
    ensures r.Interface? && r.isShareable == isShareable && r.isRemote == isRemote
    ensures r.name == name && r.accessor == PACKAGE && r.superInterfaces == []
    ensures ClassSize(r) == 1
  {
    Interface(isAbstract, isShareable, isRemote, name, hasToken, token, PACKAGE, [], [], [])
  }
}
