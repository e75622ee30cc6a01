/**
 * The constant pool component: one entry per entry of the assembly's constant
 * pool, each class, field or method it names resolved to a reference inside this
 * package (by offset) or into an imported package (by tokens), and one type per
 * entry appended to the descriptor component's `constant_pool_types`.
 */
module ConstantPool {
  import opened Wrappers
  import opened Bytes
  import opened Jca
  import opened Table
  import D = Descriptor

  /** A static field reference: the field's offset in the static field image, or its tokens. */
  datatype StaticFieldRefInfo =
    | InternalStaticField(offset: int)
    | ExternalStaticField(packageToken: int, classToken: int, token: int)

  /** A static method reference: the method's offset in the method component, or its tokens. */
  datatype StaticMethodRefInfo =
    | InternalStaticMethod(offset: int)
    | ExternalStaticMethod(packageToken: int, classToken: int, token: int)

  /**
   * A constant pool entry. A class reference is absent where the converter left it
   * unset: an internal name that no class or interface of the package carries.
   */
  datatype CPInfo =
    | ClassEntry(classRef: Option<D.ClassRefInfo>)
    | InstanceFieldEntry(fieldClass: Option<D.ClassRefInfo>, fieldToken: int)
    | StaticFieldEntry(staticField: StaticFieldRefInfo, name: string)
    | StaticMethodEntry(staticMethod: StaticMethodRefInfo)
    | SuperMethodEntry(superClass: Option<D.ClassRefInfo>, superToken: int)
    | VirtualMethodEntry(virtualClass: Option<D.ClassRefInfo>, virtualToken: int)

  // ---------------------------------------------------------------- class references

  /** The class of this package called `name`: the offset of its record, or nothing when no object has the name. */
  function InternalClass(objs: seq<Object>, name: Option<string>): Option<D.ClassRefInfo>
  {
    var i := IndexOfName(objs, name);
    if i < |objs| then Some(D.InternalRef(OffsetOfName(objs, name))) else None
  }

  /** A class is found exactly when some object has the name, at the offset of the first such object. */
  lemma InternalClassMeaning(objs: seq<Object>, name: Option<string>)
    ensures var r := InternalClass(objs, name);
            && (r.Some? <==> exists i :: 0 <= i < |objs| && Some(objs[i].name) == name)
            && (r.Some? ==> r.value == D.InternalRef(OffsetBefore(objs, IndexOfName(objs, name))))
  {
  }

  /** A class of an imported package: the package token with its top bit set, and the class token. */
  function ExternalClass(packageToken: int, classToken: int): (r: D.ClassRefInfo)
    ensures r.ExternalRef? && r.packageToken >= 0x80 && r.packageToken % 0x80 == packageToken % 0x80
  {
    D.ExternalRef(ExternalPackage(packageToken), ToByte(classToken))
  }

  /** `getConstantClassRef`. */
  function ClassRefOf(objs: seq<Object>, r: ClassRef): Option<D.ClassRefInfo>
  {
    if r.hasToken then Some(ExternalClass(r.packageToken, r.classToken)) else InternalClass(objs, r.name)
  }

  /**
   * An internal class reference is the sum of the record sizes of the objects before
   * the first one with the name; an external one keeps the tokens, the package token
   * with its top bit set.
   */
  lemma ClassRefMeaning(objs: seq<Object>, r: ClassRef, j: int)
    requires 0 <= j < |objs| && !r.hasToken && r.name == Some(objs[j].name)
    requires forall i :: 0 <= i < j ==> objs[i].name != objs[j].name
    ensures ClassRefOf(objs, r) == Some(D.InternalRef(OffsetBefore(objs, j)))
  {
    OwnNameFound(objs, j);
  }

  /** The loop of `getConstantClassRef` and its kin: the offset of the named object, if one has the name. */
  method ResolveClass(objs: seq<Object>, name: Option<string>) returns (r: Option<D.ClassRefInfo>, index: int)
    ensures r == InternalClass(objs, name) && index == IndexOfName(objs, name)
  {
    var offset := 0;
    index := 0;
    while index < |objs|
      invariant 0 <= index <= |objs| && offset == OffsetBefore(objs, index)
      invariant forall i :: 0 <= i < index ==> Some(objs[i].name) != name
    {
      if Some(objs[index].name) == name {
        return Some(D.InternalRef(offset)), index;
      }
      offset := offset + ClassSize(objs[index]);
      index := index + 1;
    }
    return None, index;
  }

  // ---------------------------------------------------------------- qualified names

  /**
   * `name.substring(0, lastSlash)` and `name.substring(lastSlash + 1)`; without a
   * slash the first substring is out of bounds.
   */
  function SplitAtLastSlash(s: string): (r: Result<(string, string)>)
    ensures r.Err? <==> '/' !in s
  {
    var i := LastSlash(s);
    if i < 0 then
      assert forall k :: 0 <= k < |s| ==> s[k] != '/';
      Err("StringIndexOutOfBoundsException")
    else
      Ok((s[..i], s[i + 1..]))
  }

  /** The two parts around the last slash make up the name again, and the second holds no slash. */
  lemma SplitAtLastSlashRoundTrip(s: string)
    requires '/' in s
    ensures var r := SplitAtLastSlash(s).value;
            r.0 + "/" + r.1 == s && '/' !in r.1
  {
    var i := LastSlash(s);
    assert s == s[..i] + "/" + s[i + 1..];
  }

  /** `String.replace(p, "")`: every occurrence of `p`, scanning left to right, removed. */
  function RemoveAll(s: string, p: string): (r: string)
    requires |p| > 0
    ensures |r| <= |s|
    decreases |s|
  {
    if |s| < |p| then s
    else if s[..|p|] == p then RemoveAll(s[|p|..], p)
    else [s[0]] + RemoveAll(s[1..], p)
  }

  /** `p` occurs in `s` at position `k`. */
  predicate OccursAt(s: string, p: string, k: int)
  {
    0 <= k && k + |p| <= |s| && s[k..k + |p|] == p
  }

  /** Removing the class prefix from a qualified name leaves the rest, when the rest does not contain the prefix. */
  lemma {:induction false} RemovePrefix(p: string, rest: string)
    requires |p| > 0 && forall k :: !OccursAt(rest, p, k)
    ensures RemoveAll(p + rest, p) == rest
  {
    assert (p + rest)[..|p|] == p;
    assert (p + rest)[|p|..] == rest;
    RemoveAbsent(rest, p);
  }

  /** Without an occurrence of `p`, nothing is removed. */
  lemma {:induction false} RemoveAbsent(s: string, p: string)
    requires |p| > 0 && forall k :: !OccursAt(s, p, k)
    ensures RemoveAll(s, p) == s
    decreases |s|
  {
    if |s| >= |p| {
      assert !OccursAt(s, p, 0);
      assert s[..|p|] == s[0..|p|];
      var t := s[1..];
      forall k
        ensures !OccursAt(t, p, k)
      {
        assert !OccursAt(s, p, k + 1);
        if 0 <= k && k + |p| <= |t| {
          assert t[k..k + |p|] == s[k + 1..k + 1 + |p|];
        }
      }
      RemoveAbsent(t, p);
      assert s == [s[0]] + t;
    }
  }

  /** The signature under which the constant pool names a method: `class/name(params)ret`. */
  function Signature(m: MethodRef): string
  {
    m.methodName + "(" + TypeStrings(m.parameters) + ")" + TypeString(m.returnType)
  }

  // ---------------------------------------------------------------- field references

  /** The token of the first field called `name`, as a byte, or 0 when there is none. */
  function FieldTokenNamed(fs: seq<Field>, name: string): (r: int)
    ensures IsByte(r)
  {
    if fs == [] then 0
    else if fs[0].name == name then ToByte(fs[0].fieldToken)
    else FieldTokenNamed(fs[1..], name)
  }

  /** The token of the first field with the name, or 0 when no field has it. */
  lemma {:induction false} FieldTokenNamedMeaning(fs: seq<Field>, name: string, k: int)
    requires 0 <= k <= |fs| && forall j :: 0 <= j < k ==> fs[j].name != name
    ensures k == |fs| ==> FieldTokenNamed(fs, name) == 0
    ensures k < |fs| && fs[k].name == name ==> FieldTokenNamed(fs, name) == ToByte(fs[k].fieldToken)
  {
    if fs != [] && k > 0 {
      assert fs[0].name != name;
      assert forall j :: 0 <= j < k - 1 ==> fs[1..][j] == fs[j + 1];
      FieldTokenNamedMeaning(fs[1..], name, k - 1);
    }
  }

  /**
   * `getConstantInstanceFieldRef`, with the reference to a field of an imported
   * package built from its tokens.
   */
  function InstanceFieldOf(objs: seq<Object>, f: FieldRef): (r: Result<CPInfo>)
    ensures r.Ok? ==> r.value.InstanceFieldEntry?
    ensures f.hasToken ==> r == Ok(InstanceFieldEntry(Some(ExternalClass(f.packageToken, f.classToken)),
                                                      ToByte(f.fieldToken)))
  {
    if f.hasToken then Ok(InstanceFieldEntry(Some(ExternalClass(f.packageToken, f.classToken)), ToByte(f.fieldToken)))
    else
      var parts :- SplitAtLastSlash(f.name);
      var i := IndexOfName(objs, Some(parts.0));
      if i < |objs| then Ok(InstanceFieldEntry(InternalClass(objs, Some(parts.0)), FieldTokenNamed(objs[i].fields, parts.1)))
      else Ok(InstanceFieldEntry(None, 0))
  }

  /** As written, the reference to a field of an imported package is left without class and token. */
  function InstanceFieldOfAsWritten(objs: seq<Object>, f: FieldRef): Result<CPInfo>
  {
    if f.hasToken then Ok(InstanceFieldEntry(None, 0)) else InstanceFieldOf(objs, f)
  }

  /** The field `token` of class `1.2` in an imported package: as written the entry carries neither. */
  lemma ExternalInstanceFieldLostAsWritten(objs: seq<Object>)
    ensures var f := FieldRef(JType(SHORT, false, ClassRef(None, false, 0, 0)), "", true, 1, 2, 3);
            && InstanceFieldOfAsWritten(objs, f) == Ok(InstanceFieldEntry(None, 0))
            && InstanceFieldOf(objs, f) == Ok(InstanceFieldEntry(Some(D.ExternalRef(0x81, 2)), 3))
  {
  }

  /**
   * `getConstantStaticFieldRef`: the tokens of a field of an imported package, else the
   * image offset of the one image cell with the field's name; no cell, or more than
   * one, fails.
   */
  function StaticFieldOf(image: seq<Cell<Field>>, f: FieldRef): (r: Result<CPInfo>)
    ensures r.Err? <==> !f.hasToken && RowSize(image, f.name) != 1
  {
    if f.hasToken then
      Ok(StaticFieldEntry(ExternalStaticField(ExternalPackage(f.packageToken), ToByte(f.classToken),
                                              ToByte(f.fieldToken)), f.name))
    else
      var n := RowSize(image, f.name);
      if n > 1 then Err(Decimal(n) + " static fields have the same name")
      else match FirstInRow(image, f.name)
        case None => Err("NoSuchElementException")
        case Some(column) => Ok(StaticFieldEntry(InternalStaticField(column), f.name))
  }

  /** An internal static field reference holds the column of an image cell in the field's row. */
  lemma StaticFieldLocated(image: seq<Cell<Field>>, f: FieldRef)
    requires !f.hasToken && StaticFieldOf(image, f).Ok?
    ensures exists i :: 0 <= i < |image| && image[i].row == f.name &&
                        StaticFieldOf(image, f).value == StaticFieldEntry(InternalStaticField(image[i].column), f.name)
  {
  }

  // ---------------------------------------------------------------- method references

  /** `getConstantStaticMethodRef`: the tokens, else the offset the method component recorded; none fails. */
  function StaticMethodOf(offsets: map<string, int>, m: MethodRef): (r: Result<CPInfo>)
    ensures r.Err? <==> !m.hasToken && Signature(m) !in offsets
    ensures r.Ok? && !m.hasToken ==> r.value == StaticMethodEntry(InternalStaticMethod(offsets[Signature(m)]))
  {
    if m.hasToken then
      Ok(StaticMethodEntry(ExternalStaticMethod(ExternalPackage(m.packageToken), ToByte(m.classToken),
                                                ToByte(m.methodToken))))
    else if Signature(m) in offsets then Ok(StaticMethodEntry(InternalStaticMethod(offsets[Signature(m)])))
    else Err("Unable to find method offset")
  }

  /** The token of the first method whose full name is `name`, as a byte, or 0 when there is none. */
  function MethodTokenNamed(ms: seq<Method>, name: string): (r: int)
    ensures IsByte(r)
  {
    if ms == [] then 0
    else if FullName(ms[0].signature) == name then ToByte(ms[0].token)
    else MethodTokenNamed(ms[1..], name)
  }

  /** The token of the first method with the full name, or 0 when no method has it. */
  lemma {:induction false} MethodTokenNamedMeaning(ms: seq<Method>, name: string, k: int)
    requires 0 <= k <= |ms| && forall j :: 0 <= j < k ==> FullName(ms[j].signature) != name
    ensures k == |ms| ==> MethodTokenNamed(ms, name) == 0
    ensures k < |ms| && FullName(ms[k].signature) == name ==> MethodTokenNamed(ms, name) == ToByte(ms[k].token)
  {
    if ms != [] && k > 0 {
      assert FullName(ms[0].signature) != name;
      assert forall j :: 0 <= j < k - 1 ==> ms[1..][j] == ms[j + 1];
      MethodTokenNamedMeaning(ms[1..], name, k - 1);
    }
  }

  /**
   * The internal part of a super or virtual method reference: the class before the last
   * slash of the method name and the token of its method whose full name is the
   * signature with `class/` removed.
   */
  function ClassMethodOf(objs: seq<Object>, m: MethodRef): (r: Result<(Option<D.ClassRefInfo>, int)>)
    ensures r.Err? <==> '/' !in m.methodName
    ensures r.Ok? ==> IsByte(r.value.1)
  {
    var parts :- SplitAtLastSlash(m.methodName);
    var name := RemoveAll(Signature(m), parts.0 + "/");
    var i := IndexOfName(objs, Some(parts.0));
    if i < |objs| then Ok((InternalClass(objs, Some(parts.0)), MethodTokenNamed(objs[i].methods, name)))
    else Ok((None, 0))
  }

  /** `getConstantSuperMethodRef`. */
  function SuperMethodOf(objs: seq<Object>, m: MethodRef): (r: Result<CPInfo>)
    ensures r.Err? <==> !m.hasToken && '/' !in m.methodName
    ensures r.Ok? ==> r.value.SuperMethodEntry? && IsByte(r.value.superToken)
    ensures r.Ok? && m.hasToken ==>
              r.value.superClass == Some(ExternalClass(m.packageToken, m.classToken))
              && r.value.superToken == m.methodToken % 256
  {
    if m.hasToken then Ok(SuperMethodEntry(Some(ExternalClass(m.packageToken, m.classToken)), ToByte(m.methodToken)))
    else
      var c :- ClassMethodOf(objs, m);
      Ok(SuperMethodEntry(c.0, c.1))
  }

  /** The methods of every class and interface of the package, object by object. */
  function AllMethods(objs: seq<Object>): (r: seq<Method>)
  {
    if objs == [] then [] else AllMethods(objs[..|objs| - 1]) + objs[|objs| - 1].methods
  }

  /**
   * The high bit of a virtual method token as section 6.7.4 of the Java Card 2.1
   * virtual machine specification sets it: clear for a public or protected method,
   * set for a package-visible one; each method with the signature overrides the
   * previous one. A private method's token loses the bit, as the converter does.
   */
  function MaskToken(ms: seq<Method>, sig: string, token: int): (r: int)
    requires IsByte(token)
    ensures IsByte(r) && r % 0x80 == token % 0x80
  {
    if ms == [] then token else MaskStep(MaskToken(ms[..|ms| - 1], sig, token), ms[|ms| - 1], sig)
  }

  /** The token after one method: its high bit set by the method's access if it has the signature. */
  function MaskStep(t: int, m: Method, sig: string): (r: int)
    requires IsByte(t)
    ensures IsByte(r) && r % 0x80 == t % 0x80
    ensures FullName(m.signature) == sig ==> (r >= 0x80 <==> m.accessor == PACKAGE)
  {
    if FullName(m.signature) != sig then t
    else match m.accessor
      case PUBLIC => t % 0x80
      case PROTECTED => t % 0x80
      case PRIVATE => t % 0x80
      case PACKAGE => t % 0x80 + 0x80
  }

  /** The index of the last method with the signature, or -1. */
  function LastNamed(ms: seq<Method>, sig: string): (r: int)
    ensures -1 <= r < |ms|
    ensures r >= 0 ==> FullName(ms[r].signature) == sig
    ensures forall i :: r < i < |ms| ==> FullName(ms[i].signature) != sig
  {
    if ms == [] then -1
    else if FullName(ms[|ms| - 1].signature) == sig then |ms| - 1
    else LastNamed(ms[..|ms| - 1], sig)
  }

  /** The last method with the signature decides the high bit; without one the token is untouched. */
  lemma {:induction false} MaskTokenLastWins(ms: seq<Method>, sig: string, token: int)
    requires IsByte(token)
    ensures var i := LastNamed(ms, sig);
            && (i < 0 ==> MaskToken(ms, sig, token) == token)
            && (i >= 0 ==> (MaskToken(ms, sig, token) >= 0x80 <==> ms[i].accessor == PACKAGE))
  {
    if ms != [] && FullName(ms[|ms| - 1].signature) != sig {
      MaskTokenLastWins(ms[..|ms| - 1], sig, token);
    }
  }

  /** As written: a public or protected match keeps only the high bit (`token & 0x80`), a private one clears it. */
  function MaskTokenAsWritten(ms: seq<Method>, sig: string, token: int): (r: int)
    requires IsByte(token)
    ensures IsByte(r)
  {
    if ms == [] then token
    else
      var t := MaskTokenAsWritten(ms[..|ms| - 1], sig, token);
      var m := ms[|ms| - 1];
      if FullName(m.signature) != sig then t
      else match m.accessor
        case PUBLIC => t / 0x80 * 0x80
        case PROTECTED => t / 0x80 * 0x80
        case PRIVATE => t % 0x80
        case PACKAGE => t
  }

  /** A public virtual method with token 5: as written the reference carries token 0, not 5. */
  lemma PublicTokenLostAsWritten()
    ensures var sig := MethodSignature(false, false, false, "a/C/m", [], JType(VOID, false, ClassRef(None, false, 0, 0)), []);
            var m := Method(PUBLIC, false, true, 5, sig, Bytecodes(0, 0, [], [], []));
            MaskTokenAsWritten([m], FullName(sig), 5) == 0 && MaskToken([m], FullName(sig), 5) == 5
  {
    var sig := MethodSignature(false, false, false, "a/C/m", [], JType(VOID, false, ClassRef(None, false, 0, 0)), []);
    var m := Method(PUBLIC, false, true, 5, sig, Bytecodes(0, 0, [], [], []));
    assert [m][..0] == [];
  }

  /** A package-visible virtual method with token 5: as written no case sets the high bit, so it stays 5, not 0x85. */
  lemma PackageTokenKeptAsWritten()
    ensures var sig := MethodSignature(false, false, false, "a/C/m", [], JType(VOID, false, ClassRef(None, false, 0, 0)), []);
            var m := Method(PACKAGE, false, true, 5, sig, Bytecodes(0, 0, [], [], []));
            MaskTokenAsWritten([m], FullName(sig), 5) == 5 && MaskToken([m], FullName(sig), 5) == 0x85
  {
    var sig := MethodSignature(false, false, false, "a/C/m", [], JType(VOID, false, ClassRef(None, false, 0, 0)), []);
    var m := Method(PACKAGE, false, true, 5, sig, Bytecodes(0, 0, [], [], []));
    assert [m][..0] == [];
  }

  /** `getConstantVirtualMethodRef`: the class and token, then the token's high bit set by the matching methods. */
  function VirtualMethodOf(objs: seq<Object>, m: MethodRef): (r: Result<CPInfo>)
    ensures r.Err? <==> !m.hasToken && '/' !in m.methodName
    ensures r.Ok? ==> r.value.VirtualMethodEntry? && IsByte(r.value.virtualToken)
    ensures r.Ok? && m.hasToken ==>
              r.value.virtualClass == Some(ExternalClass(m.packageToken, m.classToken))
              && r.value.virtualToken % 0x80 == m.methodToken % 256 % 0x80
  {
    var c :- if m.hasToken then Ok((Some(ExternalClass(m.packageToken, m.classToken)), ToByte(m.methodToken)))
             else ClassMethodOf(objs, m);
    Ok(VirtualMethodEntry(c.0, MaskToken(AllMethods(objs), Signature(m), c.1)))
  }

  // ---------------------------------------------------------------- entries

  /** The pool entry for one assembly entry; a method reference without a kind, or an unknown entry, fails. */
  function EntryOf(objs: seq<Object>, image: seq<Cell<Field>>, offsets: map<string, int>, e: CPEntry)
    : (r: Result<CPInfo>)
    ensures e.CPOther? ==> r.Err?
    ensures e.CPClass? ==> r == Ok(ClassEntry(ClassRefOf(objs, e.classRef)))
  {
    match e
    case CPClass(c) => Ok(ClassEntry(ClassRefOf(objs, c)))
    case CPInstanceField(f) => InstanceFieldOf(objs, f)
    case CPStaticField(f) => StaticFieldOf(image, f)
    case CPMethod(m) =>
      (match m.kind
       case None => Err("NullPointerException")
       case Some(STATIC_METHOD) => StaticMethodOf(offsets, m)
       case Some(SUPER_METHOD) => SuperMethodOf(objs, m)
       case Some(VIRTUAL_METHOD) => VirtualMethodOf(objs, m))
    case CPOther => Err("Constant pool type is unknown")
  }

  /**
   * `addFieldInDescriptorComponent`: the descriptor of a primitive or reference field
   * type, stored in the table; a `void` type adds no type at all.
   */
  function FieldTypes(objs: seq<Object>, ft: JType, t: D.TypeTable): (r: (seq<int>, D.TypeTable))
    ensures ft.kind == VOID <==> r.0 == []
    ensures ft.kind != VOID ==> |r.0| == 1
  {
    match ft.kind
    case VOID => ([], t)
    case REFERENCE => var a := D.AddType(t, D.ReferenceDescriptor(objs, ft)); ([a.0], a.1)
    case _ => var a := D.AddType(t, D.PrimitiveDescriptor(ft).value); ([a.0], a.1)
  }

  /** The types one entry appends to `constant_pool_types`, and the table after them. */
  function EntryTypes(objs: seq<Object>, e: CPEntry, t: D.TypeTable): (r: Result<(seq<int>, D.TypeTable)>)
    ensures r.Ok? && e.CPClass? ==> r.value == ([0xFFFF], t)
    ensures r.Ok? && e.CPMethod? ==> |r.value.0| == 1
  {
    match e
    case CPClass(_) => Ok(([0xFFFF], t))
    case CPInstanceField(f) => Ok(FieldTypes(objs, f.ftype, t))
    case CPStaticField(f) => Ok(FieldTypes(objs, f.ftype, t))
    case CPMethod(m) =>
      var desc :- D.SignatureDescriptor(objs, m.parameters, m.returnType, m.descriptors);
      var a := D.AddType(t, desc);
      Ok(([a.0], a.1))
    case CPOther => Err("Constant pool type is unknown")
  }

  /** One iteration of the constructor's loop: the entry, then the types it appends, and the table after them. */
  function EntryStep(objs: seq<Object>, image: seq<Cell<Field>>, offsets: map<string, int>, e: CPEntry,
                     t: D.TypeTable): Result<(CPInfo, seq<int>, D.TypeTable)>
  {
    var info :- EntryOf(objs, image, offsets, e);
    var types :- EntryTypes(objs, e, t);
    Ok((info, types.0, types.1))
  }

  /** A loop over the entries, one step per entry, each step given the table the previous ones left. */
  type Step = (CPEntry, D.TypeTable) -> Result<(CPInfo, seq<int>, D.TypeTable)>

  /** The entries and types of the first `n` steps, and the table after them; the first failing step ends it. */
  function Fold(step: Step, es: seq<CPEntry>, types0: seq<int>, t: D.TypeTable, n: int)
    : (r: Result<(seq<CPInfo>, seq<int>, D.TypeTable)>)
    requires 0 <= n <= |es|
    ensures r.Ok? ==> |r.value.0| == n
  {
    if n == 0 then Ok(([], types0, t))
    else
      var prev :- Fold(step, es, types0, t, n - 1);
      var next :- step(es[n - 1], prev.2);
      Ok((prev.0 + [next.0], prev.1 + next.1, next.2))
  }

  /** One step of a fold, unfolded. */
  lemma FoldNext(step: Step, es: seq<CPEntry>, types0: seq<int>, t: D.TypeTable, n: int,
                 infos: seq<CPInfo>, types: seq<int>, t1: D.TypeTable)
    requires 0 <= n < |es| && Fold(step, es, types0, t, n) == Ok((infos, types, t1))
    ensures step(es[n], t1).Err? ==> Fold(step, es, types0, t, n + 1).Err?
    ensures step(es[n], t1).Ok? ==>
              Fold(step, es, types0, t, n + 1) == Ok((infos + [step(es[n], t1).value.0], types + step(es[n], t1).value.1,
                                              step(es[n], t1).value.2))
  {
  }

  /** Once a step fails, every longer fold fails the same way. */
  lemma {:induction false} FoldErr(step: Step, es: seq<CPEntry>, types0: seq<int>, t: D.TypeTable, n: int, k: int)
    requires 0 <= n <= k <= |es| && Fold(step, es, types0, t, n).Err?
    ensures Fold(step, es, types0, t, k) == Fold(step, es, types0, t, n)
    decreases k - n
  {
    if n < k {
      FoldErr(step, es, types0, t, n, k - 1);
      var prev := Fold(step, es, types0, t, k - 1);
      assert Fold(step, es, types0, t, k) == Err(prev.message);
    }
  }

  /** A fold whose steps fail exactly on the refused entries fails exactly when one of its entries is refused. */
  lemma {:induction false} FoldRefused(step: Step, refused: CPEntry -> bool, es: seq<CPEntry>, types0: seq<int>,
                                       t: D.TypeTable, n: int)
    requires 0 <= n <= |es|
    requires forall e, t0 :: step(e, t0).Err? <==> refused(e)
    ensures Fold(step, es, types0, t, n).Err? <==> exists i :: 0 <= i < n && refused(es[i])
  {
    if n > 0 {
      FoldRefused(step, refused, es, types0, t, n - 1);
    }
  }

  /** `t2` is a well-formed table that extends `t`. */
  predicate Grows(t: D.TypeTable, t2: D.TypeTable, start: int)
  {
    D.WellFormed(t2, start) && |t.entries| <= |t2.entries| && t2.entries[..|t.entries|] == t.entries
  }

  lemma GrowsTransitive(t0: D.TypeTable, t1: D.TypeTable, t2: D.TypeTable, start: int)
    requires Grows(t0, t1, start) && Grows(t1, t2, start)
    ensures Grows(t0, t2, start)
  {
    assert t2.entries[..|t0.entries|] == t1.entries[..|t0.entries|];
  }

  /** Steps that each keep the table well formed and only append to it make a fold that does too. */
  lemma {:induction false} FoldKeepsTable(step: Step, es: seq<CPEntry>, types0: seq<int>, t: D.TypeTable, n: int,
                                          start: int)
    requires 0 <= n <= |es| && D.WellFormed(t, start) && Fold(step, es, types0, t, n).Ok?
    requires forall e, t0 :: D.WellFormed(t0, start) && step(e, t0).Ok? ==> Grows(t0, step(e, t0).value.2, start)
    ensures Grows(t, Fold(step, es, types0, t, n).value.2, start)
  {
    if n > 0 {
      FoldKeepsTable(step, es, types0, t, n - 1, start);
      var prev := Fold(step, es, types0, t, n - 1).value;
      FoldNext(step, es, types0, t, n - 1, prev.0, prev.1, prev.2);
      GrowsTransitive(t, prev.2, step(es[n - 1], prev.2).value.2, start);
    }
  }

  /** An entry that declares no field of type `void`. */
  predicate Typed(e: CPEntry)
  {
    !((e.CPInstanceField? || e.CPStaticField?) && e.fieldRef.ftype.kind == VOID)
  }

  /** The type an entry contributes: 0xFFFF for a class, for a method an offset holding its signature's descriptor. */
  predicate TypeOfEntry(objs: seq<Object>, e: CPEntry, es: seq<D.TypeEntry>, ty: int)
  {
    (e.CPClass? ==> ty == 0xFFFF) &&
    (e.CPMethod? ==> var sd := D.SignatureDescriptor(objs, e.methodRef.parameters, e.methodRef.returnType,
                                                       e.methodRef.descriptors);
                       sd.Ok? && D.Lookup(es, ty) == Some(sd.value))
  }

  /** A step appends one type, the entry's, unless the entry is a `void` field, which appends none. */
  predicate TypedStep(objs: seq<Object>, e: CPEntry, r: (CPInfo, seq<int>, D.TypeTable))
  {
    (Typed(e) ==> |r.1| == 1 && TypeOfEntry(objs, e, r.2.entries, r.1[0])) && (!Typed(e) ==> r.1 == [])
  }

  /** Appending entries to a table does not change what an offset already found. */
  lemma {:induction false} LookupKept(es: seq<D.TypeEntry>, longer: seq<D.TypeEntry>, offset: int)
    requires |es| <= |longer| && longer[..|es|] == es && D.Lookup(es, offset).Some?
    ensures D.Lookup(longer, offset) == D.Lookup(es, offset)
  {
    if es[0].offset != offset {
      assert longer[1..][..|es| - 1] == es[1..];
      LookupKept(es[1..], longer[1..], offset);
    }
  }

  /** A method's type still names its descriptor once the table has grown. */
  lemma TypeOfEntryKept(objs: seq<Object>, e: CPEntry, es: seq<D.TypeEntry>, longer: seq<D.TypeEntry>, ty: int)
    requires TypeOfEntry(objs, e, es, ty) && |es| <= |longer| && longer[..|es|] == es
    ensures TypeOfEntry(objs, e, longer, ty)
  {
    if e.CPMethod? {
      LookupKept(es, longer, ty);
    }
  }

  /**
   * With steps that each append their entry's type and keep the table, and no `void`
   * field, the fold appends exactly one type per entry, in order, and each still
   * means what it meant in the final table.
   */
  lemma {:induction false} FoldTypes(objs: seq<Object>, step: Step, es: seq<CPEntry>, types0: seq<int>,
                                     t: D.TypeTable, n: int, start: int)
    requires 0 <= n <= |es| && D.WellFormed(t, start) && Fold(step, es, types0, t, n).Ok?
    requires forall i :: 0 <= i < n ==> Typed(es[i])
    requires forall e, t0 :: D.WellFormed(t0, start) && step(e, t0).Ok? ==> Grows(t0, step(e, t0).value.2, start)
    requires forall e, t0 :: D.WellFormed(t0, start) && step(e, t0).Ok? ==> TypedStep(objs, e, step(e, t0).value)
    ensures var r := Fold(step, es, types0, t, n).value;
            && |r.1| == |types0| + n && r.1[..|types0|] == types0
            && forall i :: 0 <= i < n ==> TypeOfEntry(objs, es[i], r.2.entries, r.1[|types0| + i])
  {
    if n > 0 {
      FoldTypes(objs, step, es, types0, t, n - 1, start);
      FoldKeepsTable(step, es, types0, t, n - 1, start);
      var prev := Fold(step, es, types0, t, n - 1).value;
      FoldNext(step, es, types0, t, n - 1, prev.0, prev.1, prev.2);
      var next := step(es[n - 1], prev.2).value;
      assert TypedStep(objs, es[n - 1], next);
      var types := prev.1 + next.1;
      forall i | 0 <= i < n
        ensures TypeOfEntry(objs, es[i], next.2.entries, types[|types0| + i])
      {
        if i < n - 1 {
          TypeOfEntryKept(objs, es[i], prev.2.entries, next.2.entries, prev.1[|types0| + i]);
        }
      }
      assert types[..|types0|] == prev.1[..|types0|];
    }
  }

  // ---------------------------------------------------------------- the constant pool

  /** An entry is refused: its reference cannot be resolved, or its signature cannot be described. */
  predicate Refused(objs: seq<Object>, image: seq<Cell<Field>>, offsets: map<string, int>, e: CPEntry)
  {
    EntryOf(objs, image, offsets, e).Err? ||
    (e.CPMethod? && D.SignatureDescriptor(objs, e.methodRef.parameters, e.methodRef.returnType,
                                          e.methodRef.descriptors).Err?)
  }

  /** The constructor's step over the package's objects, static field image and method offsets. */
  function PoolStep(objs: seq<Object>, image: seq<Cell<Field>>, offsets: map<string, int>): Step
  {
    (e: CPEntry, t: D.TypeTable) => EntryStep(objs, image, offsets, e, t)
  }

  /** The constructor's step fails exactly on a refused entry, whatever the table. */
  lemma StepRefused(objs: seq<Object>, image: seq<Cell<Field>>, offsets: map<string, int>)
    ensures forall e, t :: PoolStep(objs, image, offsets)(e, t).Err? <==> Refused(objs, image, offsets, e)
  {
  }

  /** The constructor's step keeps the table well formed and appends its entry's type. */
  lemma StepTypes(objs: seq<Object>, image: seq<Cell<Field>>, offsets: map<string, int>, start: int)
    ensures forall e, t :: D.WellFormed(t, start) && PoolStep(objs, image, offsets)(e, t).Ok? ==>
              Grows(t, PoolStep(objs, image, offsets)(e, t).value.2, start)
    ensures forall e, t :: D.WellFormed(t, start) && PoolStep(objs, image, offsets)(e, t).Ok? ==>
              TypedStep(objs, e, PoolStep(objs, image, offsets)(e, t).value)
  {
    forall e, t | D.WellFormed(t, start) && EntryStep(objs, image, offsets, e, t).Ok?
      ensures Grows(t, EntryStep(objs, image, offsets, e, t).value.2, start)
      ensures TypedStep(objs, e, EntryStep(objs, image, offsets, e, t).value)
    {
      EntryTypesKeepTable(objs, e, t, start);
      EntryTypesType(objs, e, t, start);
    }
  }

  /** One entry keeps the table well formed and only appends to it. */
  lemma EntryTypesKeepTable(objs: seq<Object>, e: CPEntry, t: D.TypeTable, start: int)
    requires D.WellFormed(t, start) && EntryTypes(objs, e, t).Ok?
    ensures Grows(t, EntryTypes(objs, e, t).value.1, start)
  {
    match e
    case CPClass(_) =>
    case CPInstanceField(f) => FieldTypesWellFormed(objs, f.ftype, t, start);
    case CPStaticField(f) => FieldTypesWellFormed(objs, f.ftype, t, start);
    case CPMethod(m) =>
      D.AddTypeWellFormed(t, start, D.SignatureDescriptor(objs, m.parameters, m.returnType, m.descriptors).value);
    case CPOther =>
  }

  /** One entry appends one type, unless it is a `void` field, and that type is the entry's. */
  lemma EntryTypesType(objs: seq<Object>, e: CPEntry, t: D.TypeTable, start: int)
    requires D.WellFormed(t, start) && EntryTypes(objs, e, t).Ok?
    ensures var r := EntryTypes(objs, e, t).value;
            && (Typed(e) ==> |r.0| == 1 && TypeOfEntry(objs, e, r.1.entries, r.0[0]))
            && (!Typed(e) ==> r.0 == [])
  {
    if e.CPMethod? {
      var m := e.methodRef;
      D.AddTypeFound(t, start, D.SignatureDescriptor(objs, m.parameters, m.returnType, m.descriptors).value);
    }
  }

  lemma FieldTypesWellFormed(objs: seq<Object>, ft: JType, t: D.TypeTable, start: int)
    requires D.WellFormed(t, start)
    ensures D.WellFormed(FieldTypes(objs, ft, t).1, start)
  {
    match ft.kind
    case VOID =>
    case REFERENCE => D.AddTypeWellFormed(t, start, D.ReferenceDescriptor(objs, ft));
    case _ => D.AddTypeWellFormed(t, start, D.PrimitiveDescriptor(ft).value);
  }

  /**
   * The entries of the first `n` assembly entries, the `constant_pool_types` list
   * `types0` with their types appended, and the table after them.
   */
  function PoolBefore(objs: seq<Object>, image: seq<Cell<Field>>, offsets: map<string, int>, es: seq<CPEntry>,
                      types0: seq<int>, t: D.TypeTable, n: int): (r: Result<(seq<CPInfo>, seq<int>, D.TypeTable)>)
    requires 0 <= n <= |es|
  {
    Fold(PoolStep(objs, image, offsets), es, types0, t, n)
  }

  /**
   * The constant pool is refused exactly when one of its entries is; otherwise it
   * holds one entry per assembly entry, and with no `void` field it appends one type
   * per entry to `constant_pool_types`, in order: 0xFFFF for a class, for a method an
   * offset at which the final table holds the method's signature descriptor. The table
   * stays well formed and only grows.
   */
  lemma PoolMeaning(objs: seq<Object>, image: seq<Cell<Field>>, offsets: map<string, int>, es: seq<CPEntry>,
                    types0: seq<int>, t: D.TypeTable, start: int)
    requires D.WellFormed(t, start)
    ensures var r := PoolBefore(objs, image, offsets, es, types0, t, |es|);
            && (r.Err? <==> exists i :: 0 <= i < |es| && Refused(objs, image, offsets, es[i]))
            && (r.Ok? ==> |r.value.0| == |es| && Grows(t, r.value.2, start))
            && (r.Ok? && (forall i :: 0 <= i < |es| ==> Typed(es[i])) ==>
                  |r.value.1| == |types0| + |es| && r.value.1[..|types0|] == types0 &&
                  forall i :: 0 <= i < |es| ==> TypeOfEntry(objs, es[i], r.value.2.entries, r.value.1[|types0| + i]))
  {
    var step := PoolStep(objs, image, offsets);
    StepRefused(objs, image, offsets);
    StepTypes(objs, image, offsets, start);
    FoldRefused(step, e => Refused(objs, image, offsets, e), es, types0, t, |es|);
    if Fold(step, es, types0, t, |es|).Ok? {
      FoldKeepsTable(step, es, types0, t, |es|, start);
      if forall i :: 0 <= i < |es| ==> Typed(es[i]) {
        FoldTypes(objs, step, es, types0, t, |es|, start);
      }
    }
  }

  /** `computeComponentSize`: the count, then four bytes per entry, as a 16-bit value. */
  function PoolSize(count: int): (r: int)
    ensures 0 <= r < 0x1_0000
    ensures 0 <= count && 2 + 4 * count < 0x1_0000 ==> r == 2 + 4 * count
  {
    ToShort(2 + 4 * count)
  }

  // ---------------------------------------------------------------- the converter's loops

  /** The field loop of `getConstantInstanceFieldRef`: the token of the first field with the name. */
  method FindFieldToken(fs: seq<Field>, name: string) returns (token: int)
    ensures token == FieldTokenNamed(fs, name)
  {
    var k := 0;
    while k < |fs|
      invariant 0 <= k <= |fs|
      invariant forall j :: 0 <= j < k ==> fs[j].name != name
    {
      if fs[k].name == name {
        FieldTokenNamedMeaning(fs, name, k);
        return ToByte(fs[k].fieldToken);
      }
      k := k + 1;
    }
    FieldTokenNamedMeaning(fs, name, k);
    return 0;
  }

  /** The method loop of `getConstantSuperMethodRef` and `getConstantVirtualMethodRef`. */
  method FindMethodToken(ms: seq<Method>, name: string) returns (token: int)
    ensures token == MethodTokenNamed(ms, name)
  {
    var k := 0;
    while k < |ms|
      invariant 0 <= k <= |ms|
      invariant forall j :: 0 <= j < k ==> FullName(ms[j].signature) != name
    {
      if FullName(ms[k].signature) == name {
        MethodTokenNamedMeaning(ms, name, k);
        return ToByte(ms[k].token);
      }
      k := k + 1;
    }
    MethodTokenNamedMeaning(ms, name, k);
    return 0;
  }

  /** `getConstantInstanceFieldRef`. */
  method InstanceFieldRef(objs: seq<Object>, f: FieldRef) returns (r: Result<CPInfo>)
    ensures r == InstanceFieldOf(objs, f)
  {
    if f.hasToken {
      return Ok(InstanceFieldEntry(Some(ExternalClass(f.packageToken, f.classToken)), ToByte(f.fieldToken)));
    }
    var parts := SplitAtLastSlash(f.name);
    if parts.Err? {
      return Err(parts.message);
    }
    var c, i := ResolveClass(objs, Some(parts.value.0));
    if i < |objs| {
      var token := FindFieldToken(objs[i].fields, parts.value.1);
      return Ok(InstanceFieldEntry(c, token));
    }
    return Ok(InstanceFieldEntry(None, 0));
  }

  /** The internal part of `getConstantSuperMethodRef` and `getConstantVirtualMethodRef`. */
  method ClassMethod(objs: seq<Object>, m: MethodRef) returns (r: Result<(Option<D.ClassRefInfo>, int)>)
    ensures r == ClassMethodOf(objs, m)
  {
    var parts := SplitAtLastSlash(m.methodName);
    if parts.Err? {
      return Err(parts.message);
    }
    var name := RemoveAll(Signature(m), parts.value.0 + "/");
    var c, i := ResolveClass(objs, Some(parts.value.0));
    if i < |objs| {
      var token := FindMethodToken(objs[i].methods, name);
      return Ok((c, token));
    }
    return Ok((None, 0));
  }

  /** Masking by one more method is one more step of `MaskToken`. */
  lemma MaskTokenNext(ms: seq<Method>, j: int, sig: string, token: int)
    requires IsByte(token) && 0 <= j < |ms|
    ensures MaskToken(ms[..j + 1], sig, token) == MaskStep(MaskToken(ms[..j], sig, token), ms[j], sig)
  {
    assert ms[..j + 1][..j] == ms[..j];
  }

  /** Masking by two runs of methods is masking by the second, from the token the first left. */
  lemma {:induction false} MaskTokenAppend(done: seq<Method>, ms: seq<Method>, sig: string, token: int)
    requires IsByte(token)
    ensures MaskToken(done + ms, sig, token) == MaskToken(ms, sig, MaskToken(done, sig, token))
  {
    if ms == [] {
      assert done + ms == done;
    } else {
      var ms' := ms[..|ms| - 1];
      MaskTokenAppend(done, ms', sig, token);
      assert (done + ms)[..|done + ms| - 1] == done + ms';
    }
  }

  /** The methods of the first `i + 1` objects are those of the first `i`, then those of object `i`. */
  lemma AllMethodsNext(objs: seq<Object>, i: int)
    requires 0 <= i < |objs|
    ensures AllMethods(objs[..i + 1]) == AllMethods(objs[..i]) + objs[i].methods
  {
    assert objs[..i + 1][..i] == objs[..i];
  }

  /** The inner masking loop: the methods of one object, from the token the earlier ones left. */
  method MaskByMethods(ms: seq<Method>, sig: string, t0: int) returns (t: int)
    requires IsByte(t0)
    ensures t == MaskToken(ms, sig, t0)
  {
    t := t0;
    var j := 0;
    while j < |ms|
      invariant 0 <= j <= |ms| && t == MaskToken(ms[..j], sig, t0)
    {
      var m := ms[j];
      MaskTokenNext(ms, j, sig, t0);
      if FullName(m.signature) == sig {
        if m.accessor == PACKAGE {
          t := t % 0x80 + 0x80;
        } else {
          t := t % 0x80;
        }
      }
      j := j + 1;
    }
    assert ms[..|ms|] == ms;
  }

  /** The masking loop of `getConstantVirtualMethodRef`, over every method of every object in order. */
  method MaskVirtualToken(objs: seq<Object>, sig: string, token: int) returns (t: int)
    requires IsByte(token)
    ensures t == MaskToken(AllMethods(objs), sig, token)
  {
    t := token;
    var i := 0;
    while i < |objs|
      invariant 0 <= i <= |objs| && t == MaskToken(AllMethods(objs[..i]), sig, token)
    {
      t := MaskByMethods(objs[i].methods, sig, t);
      MaskTokenAppend(AllMethods(objs[..i]), objs[i].methods, sig, token);
      AllMethodsNext(objs, i);
      i := i + 1;
    }
    assert objs[..|objs|] == objs;
  }

  /** The reference part of one iteration of the constructor's loop. */
  method ComputeEntry(objs: seq<Object>, image: seq<Cell<Field>>, offsets: map<string, int>, e: CPEntry)
    returns (r: Result<CPInfo>)
    ensures r == EntryOf(objs, image, offsets, e)
  {
    match e {
      case CPClass(c) =>
        if c.hasToken {
          return Ok(ClassEntry(Some(ExternalClass(c.packageToken, c.classToken))));
        }
        var ref, _ := ResolveClass(objs, c.name);
        return Ok(ClassEntry(ref));
      case CPInstanceField(f) =>
        r := InstanceFieldRef(objs, f);
      case CPStaticField(f) =>
        r := StaticFieldOf(image, f);
      case CPMethod(m) =>
        if m.kind.None? {
          return Err("NullPointerException");
        }
        match m.kind.value {
          case STATIC_METHOD =>
            r := StaticMethodOf(offsets, m);
          case SUPER_METHOD =>
            if m.hasToken {
              return Ok(SuperMethodEntry(Some(ExternalClass(m.packageToken, m.classToken)), ToByte(m.methodToken)));
            }
            var c := ClassMethod(objs, m);
            if c.Err? {
              return Err(c.message);
            }
            return Ok(SuperMethodEntry(c.value.0, c.value.1));
          case VIRTUAL_METHOD =>
            var c: Result<(Option<D.ClassRefInfo>, int)>;
            if m.hasToken {
              c := Ok((Some(ExternalClass(m.packageToken, m.classToken)), ToByte(m.methodToken)));
            } else {
              c := ClassMethod(objs, m);
            }
            if c.Err? {
              return Err(c.message);
            }
            var token := MaskVirtualToken(objs, Signature(m), c.value.1);
            return Ok(VirtualMethodEntry(c.value.0, token));
        }
      case CPOther =>
        return Err("Constant pool type is unknown");
    }
  }

  /** The constant pool component: its entry count, its entries and its size. */
  class ConstantPoolComponent {
    var count: int
    var constantPool: seq<CPInfo>
    var size: int

    constructor ()
      ensures count == 0 && constantPool == [] && size == 0
    {
      count := 0;
      constantPool := [];
      size := 0;
    }

    /** `addFieldInDescriptorComponent`: a primitive or reference field's type appended to `constant_pool_types`. */
    method AddFieldType(objs: seq<Object>, ft: JType, d: D.DescriptorComponent) returns (added: seq<int>)
      requires d.Valid()
      modifies d`typeDesc, d`offsetDesc, d`constantPoolTypes
      ensures d.Valid()
      ensures (added, d.Types()) == FieldTypes(objs, ft, old(d.Types()))
      ensures d.constantPoolTypes == old(d.constantPoolTypes) + added
    {
      match ft.kind {
        case VOID =>
          added := [];
        case REFERENCE =>
          var index := d.AddReference(objs, ft);
          d.AddConstantPoolType(index);
          added := [index];
        case _ =>
          var index := d.AddPrimitive(ft);
          d.AddConstantPoolType(index.value);
          added := [index.value];
      }
    }

    /**
     * The types of one entry appended to `constant_pool_types`: 0xFFFF for a class, a
     * field's type descriptor, or a method's signature descriptor. An entry that is
     * refused changes nothing.
     */
    method AddEntryTypes(objs: seq<Object>, e: CPEntry, d: D.DescriptorComponent) returns (r: Result<seq<int>>)
      requires d.Valid() && !e.CPOther?
      modifies d`typeDesc, d`offsetDesc, d`constantPoolTypes
      ensures d.Valid()
      ensures var s := EntryTypes(objs, e, old(d.Types()));
              && (r.Err? <==> s.Err?)
              && (r.Ok? ==> r.value == s.value.0 && d.Types() == s.value.1 &&
                            d.constantPoolTypes == old(d.constantPoolTypes) + r.value)
      ensures r.Err? ==> d.Types() == old(d.Types()) && d.constantPoolTypes == old(d.constantPoolTypes)
    {
      var added: seq<int>;
      if e.CPClass? {
        d.AddConstantPoolType(0xFFFF);
        added := [0xFFFF];
      } else if e.CPInstanceField? || e.CPStaticField? {
        added := AddFieldType(objs, e.fieldRef.ftype, d);
      } else {
        var m := e.methodRef;
        var desc := D.GetMethodSignature(objs, m.parameters, m.returnType, m.descriptors);
        if desc.Err? {
          return Err(desc.message);
        }
        var index := d.AddTypeDesc(desc.value);
        d.AddConstantPoolType(index);
        added := [index];
      }
      return Ok(added);
    }

    /**
     * One iteration of the constructor's loop: the entry, then its type appended to
     * `constant_pool_types`. An entry that is refused changes nothing.
     */
    method ComputeStep(objs: seq<Object>, image: seq<Cell<Field>>, offsets: map<string, int>, e: CPEntry,
                       d: D.DescriptorComponent) returns (r: Result<(CPInfo, seq<int>)>)
      requires d.Valid()
      modifies d`typeDesc, d`offsetDesc, d`constantPoolTypes
      ensures d.Valid()
      ensures var s := PoolStep(objs, image, offsets)(e, old(d.Types()));
              && (r.Err? <==> s.Err?)
              && (r.Ok? ==> r.value == (s.value.0, s.value.1) && d.Types() == s.value.2 &&
                            d.constantPoolTypes == old(d.constantPoolTypes) + r.value.1)
      ensures r.Err? ==> d.Types() == old(d.Types()) && d.constantPoolTypes == old(d.constantPoolTypes)
    {
      var info := ComputeEntry(objs, image, offsets, e);
      if info.Err? {
        return Err(info.message);
      }
      var added := AddEntryTypes(objs, e, d);
      if added.Err? {
        return Err(added.message);
      }
      return Ok((info.value, added.value));
    }

    /** One iteration of the constructor's loop, as one more step of the fold over the entries. */
    method Iterate(objs: seq<Object>, image: seq<Cell<Field>>, offsets: map<string, int>, es: seq<CPEntry>,
                   k: int, d: D.DescriptorComponent, ghost types0: seq<int>, ghost t0: D.TypeTable,
                   entries: seq<CPInfo>) returns (r: Result<(CPInfo, seq<int>)>)
      requires d.Valid() && 0 <= k < |es|
      requires PoolBefore(objs, image, offsets, es, types0, t0, k) == Ok((entries, d.constantPoolTypes, d.Types()))
      modifies d`typeDesc, d`offsetDesc, d`constantPoolTypes
      ensures d.Valid()
      ensures r.Err? ==> PoolBefore(objs, image, offsets, es, types0, t0, |es|).Err?
      ensures r.Ok? ==> PoolBefore(objs, image, offsets, es, types0, t0, k + 1) ==
                          Ok((entries + [r.value.0], d.constantPoolTypes, d.Types()))
    {
      ghost var step := PoolStep(objs, image, offsets);
      FoldNext(step, es, types0, t0, k, entries, d.constantPoolTypes, d.Types());
      r := ComputeStep(objs, image, offsets, es[k], d);
      if r.Err? {
        FoldErr(step, es, types0, t0, k + 1, |es|);
      }
    }

    /** The loop of the constructor: one step per assembly entry, the first refused entry ending it. */
    method ComputeEntries(objs: seq<Object>, image: seq<Cell<Field>>, offsets: map<string, int>, es: seq<CPEntry>,
                          d: D.DescriptorComponent) returns (r: Result<seq<CPInfo>>)
      requires d.Valid()
      modifies d`typeDesc, d`offsetDesc, d`constantPoolTypes
      ensures d.Valid()
      ensures var p := PoolBefore(objs, image, offsets, es, old(d.constantPoolTypes), old(d.Types()), |es|);
              && (r.Err? <==> p.Err?)
              && (r.Ok? ==> r.value == p.value.0 && d.Types() == p.value.2 && d.constantPoolTypes == p.value.1)
    {
      ghost var t0 := d.Types();
      ghost var types0 := d.constantPoolTypes;
      var entries: seq<CPInfo> := [];
      var k := 0;
      while k < |es|
        invariant 0 <= k <= |es| && d.Valid()
        invariant PoolBefore(objs, image, offsets, es, types0, t0, k) == Ok((entries, d.constantPoolTypes, d.Types()))
      {
        var next := Iterate(objs, image, offsets, es, k, d, types0, t0, entries);
        if next.Err? {
          return Err(next.message);
        }
        entries := entries + [next.value.0];
        k := k + 1;
      }
      return Ok(entries);
    }

    /**
     * The constructor: without a constant pool, an empty component of size 2 and a
     * `constant_pool_count` of 0; otherwise one entry per assembly entry, each type
     * appended to `constant_pool_types`, the count and size set from the entries and
     * `constant_pool_count` set to the number of types. A refused entry fails.
     */
    method Convert(objs: seq<Object>, image: seq<Cell<Field>>, offsets: map<string, int>, cp: Option<seq<CPEntry>>,
                   d: D.DescriptorComponent) returns (r: Result<seq<CPInfo>>)
      requires d.Valid()
      modifies this, d`typeDesc, d`offsetDesc, d`constantPoolTypes, d`constantPoolCount
      ensures d.Valid()
      ensures cp.None? ==> r == Ok([]) && count == 0 && constantPool == [] && size == PoolSize(0) &&
                           d.constantPoolCount == 0 && d.Types() == old(d.Types()) &&
                           d.constantPoolTypes == old(d.constantPoolTypes)
      ensures cp.Some? ==>
                var p := PoolBefore(objs, image, offsets, cp.value, old(d.constantPoolTypes), old(d.Types()), |cp.value|);
                && (r.Err? <==> p.Err?)
                && (r.Ok? ==> r.value == p.value.0 && d.Types() == p.value.2 && d.constantPoolTypes == p.value.1 &&
                              d.constantPoolCount == ToShort(|d.constantPoolTypes|))
      ensures r.Ok? ==> constantPool == r.value && count == ToShort(|r.value|) && size == PoolSize(|r.value|)
    {
      if cp.None? {
        count := 0;
        constantPool := [];
        size := PoolSize(|constantPool|);
        d.SetConstantPoolCount(0);
        return Ok([]);
      }
      r := ComputeEntries(objs, image, offsets, cp.value, d);
      if r.Ok? {
        count := ToShort(|r.value|);
        constantPool := r.value;
        size := PoolSize(|constantPool|);
        d.SetConstantPoolCount(ToShort(|d.constantPoolTypes|));
      }
    }
  }
}
