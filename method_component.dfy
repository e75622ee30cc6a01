/**
 * The method component (Java Card VM Specification 2.1, section 6.9): one method
 * info per method of the package's classes, each a header and the linked
 * bytecodes, preceded by the exception handler table; the method offsets it
 * records; and the positions of the tokens the reference location component lists.
 */
module MethodComponent {
  import opened Wrappers
  import opened Bytes
  import opened Opcodes
  import opened Jca
  import opened Instructions

  const ACC_EXTENDED: int := 0x08
  const ACC_ABSTRACT: int := 0x04

  // ---------------------------------------------------------------- nargs

  /** The number of parameter words that are `int`s. */
  function IntCount(ps: seq<JType>): (r: nat)
    ensures r <= |ps|
  {
    if ps == [] then 0 else IntCount(ps[..|ps| - 1]) + (if ps[|ps| - 1].kind == INT then 1 else 0)
  }

  /** A parameter list no entry of which is `void`. */
  predicate ValidParameters(ps: seq<JType>)
  {
    forall k :: 0 <= k < |ps| ==> ps[k].kind != VOID
  }

  /**
   * The words the parameters take: one per boolean, byte, short or reference
   * parameter, two per int; None for a `void` parameter, which the source rejects.
   */
  function ArgWords(ps: seq<JType>): (r: Option<int>)
    ensures r.Some? <==> ValidParameters(ps)
    ensures r.Some? ==> r.value == |ps| + IntCount(ps)
  {
    if ps == [] then Some(0)
    else
      var last := ps[|ps| - 1];
      match ArgWords(ps[..|ps| - 1])
      case None =>
        assert !ValidParameters(ps[..|ps| - 1]);
        None
      case Some(w) =>
        assert forall k :: 0 <= k < |ps| - 1 ==> ps[..|ps| - 1][k] == ps[k];
        if last.kind == VOID then None else Some(w + (if last.kind == INT then 2 else 1))
  }

  /** The `nargs` byte: the parameter words and one more for `this`, in a Java `byte`. */
  function Nargs(ps: seq<JType>, isStatic: bool): (r: Option<int>)
    ensures r.Some? <==> ValidParameters(ps)
    ensures r.Some? ==> IsByte(r.value)
    ensures r.Some? && |ps| + IntCount(ps) < 255 ==> r.value == |ps| + IntCount(ps) + (if isStatic then 0 else 1)
  {
    match ArgWords(ps)
    case None => None
    case Some(w) => Some(ToByte(w + (if isStatic then 0 else 1)))
  }

  lemma ToByteAdd(a: int, b: int)
    ensures ToByte(ToByte(a) + b) == ToByte(a + b)
  {
  }

  /** One more parameter adds its words to the count, or makes it fail. */
  lemma ArgWordsSnoc(ps: seq<JType>, k: int)
    requires 0 <= k < |ps|
    ensures ArgWords(ps[..k + 1]) ==
            match ArgWords(ps[..k])
            case None => None
            case Some(w) => if ps[k].kind == VOID then None else Some(w + (if ps[k].kind == INT then 2 else 1))
  {
    assert ps[..k + 1][..k] == ps[..k];
  }

  /** The loop of `generateMethod` that counts the argument words into a `byte`. */
  method ComputeNargs(ps: seq<JType>, isStatic: bool) returns (r: Option<int>)
    ensures r == Nargs(ps, isStatic)
  {
    var nargs := 0;
    var k := 0;
    while k < |ps|
      invariant 0 <= k <= |ps|
      invariant ArgWords(ps[..k]).Some? && nargs == ToByte(ArgWords(ps[..k]).value)
    {
      ArgWordsSnoc(ps, k);
      if ps[k].kind == VOID {
        assert !ValidParameters(ps);
        return None;
      }
      var w := if ps[k].kind == INT then 2 else 1;
      ToByteAdd(ArgWords(ps[..k]).value, w);
      nargs := ToByte(nargs + w);
      k := k + 1;
    }
    assert ps[..k] == ps;
    if !isStatic {
      ToByteAdd(ArgWords(ps).value, 1);
      nargs := ToByte(nargs + 1);
    }
    return Some(nargs);
  }

  // ---------------------------------------------------------------- method header

  /** A method header: the 4-byte extended form or the 2-byte standard form. */
  datatype Header = Header(extended: bool, flags: int, maxStack: int, maxLocals: int, nargs: int)

  predicate ValidHeader(h: Header)
  {
    IsByte(h.flags) && IsByte(h.maxStack) && IsByte(h.maxLocals) && IsByte(h.nargs)
  }

  /**
   * As written, the choice of the extended header compares the three Java bytes
   * signed, so a value of 128 or more reads as negative and keeps the standard header.
   */
  predicate NeedsExtendedAsWritten(maxStack: int, maxLocals: int, nargs: int)
    requires IsByte(maxStack) && IsByte(maxLocals) && IsByte(nargs)
  {
    SignedByte(maxLocals) > 0x0F || SignedByte(maxStack) > 0x0F || SignedByte(nargs) > 0x0F
  }

  /** The extended header is needed when one of the three values does not fit a nibble. */
  predicate NeedsExtended(maxStack: int, maxLocals: int, nargs: int)
  {
    maxLocals > 0x0F || maxStack > 0x0F || nargs > 0x0F
  }

  /** Both choices agree on every value below 128. */
  lemma NeedsExtendedAgreesBelow128(maxStack: int, maxLocals: int, nargs: int)
    requires 0 <= maxStack < 128 && 0 <= maxLocals < 128 && 0 <= nargs < 128
    ensures NeedsExtendedAsWritten(maxStack, maxLocals, nargs) == NeedsExtended(maxStack, maxLocals, nargs)
  {
  }

  /** The header `generateMethod` builds from a method's stack, locals, `nargs` and flags. */
  function MethodHeader(code: Bytecodes, nargs: int, isAbstract: bool): (r: Header)
    requires IsByte(code.maxStack) && IsByte(code.maxLocals) && IsByte(nargs)
    ensures ValidHeader(r)
    ensures r.extended <==> NeedsExtended(code.maxStack, code.maxLocals, nargs)
    ensures r.maxStack == code.maxStack && r.maxLocals == code.maxLocals && r.nargs == nargs
    ensures (r.flags / ACC_EXTENDED) % 2 == (if r.extended then 1 else 0)
    ensures (r.flags / ACC_ABSTRACT) % 2 == (if isAbstract then 1 else 0)
    ensures r.flags < 16
  {
    var extended := NeedsExtended(code.maxStack, code.maxLocals, nargs);
    Header(extended, (if extended then ACC_EXTENDED else 0) + (if isAbstract then ACC_ABSTRACT else 0),
           code.maxStack, code.maxLocals, nargs)
  }

  /** `(x & 0x0F) << 4` of a byte, as the unsigned byte it is stored in. */
  function HighNibble(x: int): int
  {
    (x % 16) * 16
  }

  /**
   * The header bytes as `generateMethodBytecodes` writes them. The extended form
   * writes `max_locals` where section 6.9 places `max_stack`.
   */
  function HeaderBytesAsWritten(h: Header): (r: seq<int>)
    requires ValidHeader(h)
    ensures AllBytes(r) && |r| == (if h.extended then 4 else 2)
  {
    if h.extended then [HighNibble(h.flags), h.maxLocals, h.nargs, h.maxLocals]
    else [HighNibble(h.flags) + h.maxStack % 16, HighNibble(h.nargs) + h.maxLocals % 16]
  }

  /** The header bytes in the specified layout: flags, max_stack, nargs, max_locals. */
  function HeaderBytes(h: Header): (r: seq<int>)
    requires ValidHeader(h)
    ensures AllBytes(r) && |r| == (if h.extended then 4 else 2)
  {
    if h.extended then [HighNibble(h.flags), h.maxStack, h.nargs, h.maxLocals]
    else [HighNibble(h.flags) + h.maxStack % 16, HighNibble(h.nargs) + h.maxLocals % 16]
  }

  /** The number of header bytes before a method's first bytecode. */
  function HeaderSize(h: Header): (r: int)
    requires ValidHeader(h)
    ensures r == |HeaderBytes(h)| && (r == 2 || r == 4)
  {
    if h.extended then 4 else 2
  }

  /** The fields a header decodes to, read back from its bytes in the specified layout. */
  function DecodeHeader(b: seq<int>, extended: bool): (r: Header)
    requires |b| == (if extended then 4 else 2)
  {
    if extended then Header(true, b[0] / 16, b[1], b[3], b[2])
    else Header(false, b[0] / 16, b[0] % 16, b[1] % 16, b[1] / 16)
  }

  /** A header chosen by `MethodHeader` decodes back to the method's values from its bytes. */
  lemma HeaderRoundTrip(code: Bytecodes, nargs: int, isAbstract: bool)
    requires IsByte(code.maxStack) && IsByte(code.maxLocals) && IsByte(nargs)
    ensures var h := MethodHeader(code, nargs, isAbstract);
            DecodeHeader(HeaderBytes(h), h.extended) == h
  {
    var h := MethodHeader(code, nargs, isAbstract);
    if h.extended {
      NibbleByte(h.flags, 0);
    } else {
      NibbleByte(h.flags, h.maxStack);
      NibbleByte(h.nargs, h.maxLocals);
    }
  }

  /** A byte made of two nibbles splits back into them. */
  lemma NibbleByte(hi: int, lo: int)
    requires 0 <= hi < 16 && 0 <= lo < 16
    ensures HighNibble(hi) + lo % 16 == hi * 16 + lo
    ensures (hi * 16 + lo) / 16 == hi && (hi * 16 + lo) % 16 == lo
  {
  }

  /** As written, an extended header with max_stack above max_locals decodes to the wrong max_stack. */
  lemma ExtendedHeaderAsWrittenLosesMaxStack()
    ensures var h := MethodHeader(Bytecodes(16, 0, [], [], []), 0, false);
            h.extended && DecodeHeader(HeaderBytesAsWritten(h), true).maxStack == 0 != h.maxStack
  {
  }

  /**
   * As written, 200 locals read as the signed byte -56 and keep the standard header,
   * whose nibble then holds 8: the count is lost.
   */
  lemma SignedChoiceLosesLocals()
    ensures !NeedsExtendedAsWritten(0, 200, 0)
    ensures var h := Header(false, 0, 0, 200, 0); DecodeHeader(HeaderBytes(h), false).maxLocals == 8
  {
  }

  // ---------------------------------------------------------------- native stubs

  /** A native method, recorded in the run-wide list with its package name. */
  datatype NativeMethod = NativeMethod(packageName: string, signature: MethodSignature)

  /** The body of a native method: `sspush <number>; impdep1`. */
  function NativeStub(number: int): (r: seq<int>)
    ensures |r| == 4 && AllBytes(r)
    ensures r[0] == SSPUSH.value && r[3] == IMPDEP1.value
    ensures r[1] * 256 + r[2] == ToShort(number)
  {
    [SSPUSH.value] + BigEndian16(number) + [IMPDEP1.value]
  }

  /** Distinct positions in the native list below 65536 get distinct stubs. */
  lemma NativeStubInjective(i: int, j: int)
    requires 0 <= i < 65536 && 0 <= j < 65536 && NativeStub(i) == NativeStub(j)
    ensures i == j
  {
    assert NativeStub(i)[1] * 256 + NativeStub(i)[2] == i;
  }

  // ---------------------------------------------------------------- method bodies

  /**
   * The parameters of instruction `i`, found at code offset `at`, once its labels
   * are resolved: a switch gets its offsets written; any other instruction keeps
   * its bytes. A switch whose labels or parameter bytes are out of range fails.
   */
  function PatchedParams(i: Instruction, labels: seq<int>, code: seq<Instruction>, at: int): (r: Result<seq<int>>)
    ensures r.Ok? ==> |r.value| == |i.parameters|
  {
    match i.switchLabels
    case NoLabels => Ok(i.parameters)
    case LookupLabels(d, _, pairs) =>
      var ls := PairLabels(pairs);
      if |i.parameters| < 4 + 4 * |pairs| then Err("IndexOutOfBoundsException")
      else if LabelTarget(labels, code, d).None? || !AllResolve(labels, code, ls) then Err("IndexOutOfBoundsException")
      else Ok(LookupPatched(i.parameters, LabelTarget(labels, code, d).value - at, Offsets(labels, code, at, ls)))
    case TableLabels(d, _, _, cases) =>
      if |i.parameters| < 10 + 2 * |cases| then Err("IndexOutOfBoundsException")
      else if LabelTarget(labels, code, d).None? || !AllResolve(labels, code, cases) then Err("IndexOutOfBoundsException")
      else Ok(TablePatched(i.parameters, LabelTarget(labels, code, d).value - at, Offsets(labels, code, at, cases)))
  }

  /** A copy of `s` in a fresh array. */
  method ToArray(s: seq<int>) returns (a: array<int>)
    ensures fresh(a) && a[..] == s
  {
    a := new int[|s|];
    forall k | 0 <= k < |s| {
      a[k] := s[k];
    }
  }

  /** `updateLabels` on a copy of the instruction's parameter list. */
  method UpdateLabels(i: Instruction, labels: seq<int>, code: seq<Instruction>, at: int)
    returns (r: Result<seq<int>>)
    ensures r == PatchedParams(i, labels, code, at)
  {
    match i.switchLabels {
      case NoLabels =>
        return Ok(i.parameters);
      case LookupLabels(d, _, pairs) =>
        if |i.parameters| < 4 + 4 * |pairs| {
          return Err("IndexOutOfBoundsException");
        }
        var a := ToArray(i.parameters);
        var ok := UpdateLookupLabels(a, d, pairs, labels, code, at);
        if !ok {
          return Err("IndexOutOfBoundsException");
        }
        return Ok(a[..]);
      case TableLabels(d, _, _, cases) =>
        if |i.parameters| < 10 + 2 * |cases| {
          return Err("IndexOutOfBoundsException");
        }
        var a := ToArray(i.parameters);
        var ok := UpdateTableLabels(a, d, cases, labels, code, at);
        if !ok {
          return Err("IndexOutOfBoundsException");
        }
        return Ok(a[..]);
    }
  }

  /** The linked bytes of the first `n` instructions: each opcode followed by its resolved parameters. */
  function BodyBytes(code: seq<Instruction>, labels: seq<int>, n: int): (r: Result<seq<int>>)
    requires 0 <= n <= |code|
    ensures r.Ok? ==> |r.value| == SizeBefore(code, n)
  {
    if n == 0 then Ok([])
    else
      var init :- BodyBytes(code, labels, n - 1);
      var ps :- PatchedParams(code[n - 1], labels, code, SizeBefore(code, n - 1));
      Ok(init + [code[n - 1].opcode.value] + ps)
  }

  /**
   * Every instruction's opcode lands at the offset the label arithmetic assigns it:
   * the sizes of the instructions before it.
   */
  lemma {:induction false} BodyOpcodeAt(code: seq<Instruction>, labels: seq<int>, n: int, k: int)
    requires 0 <= k < n <= |code| && BodyBytes(code, labels, n).Ok?
    ensures var b := BodyBytes(code, labels, n).value;
            SizeBefore(code, k) < |b| && b[SizeBefore(code, k)] == code[k].opcode.value
    decreases n
  {
    var init := BodyBytes(code, labels, n - 1).value;
    var ps := PatchedParams(code[n - 1], labels, code, SizeBefore(code, n - 1)).value;
    var b := BodyBytes(code, labels, n).value;
    assert b == init + [code[n - 1].opcode.value] + ps;
    assert |init| == SizeBefore(code, n - 1);
    if k < n - 1 {
      BodyOpcodeAt(code, labels, n - 1, k);
      assert b[SizeBefore(code, k)] == init[SizeBefore(code, k)];
    }
  }

  /** A failure stops the emission: every longer prefix fails with the same message. */
  lemma {:induction false} BodyBytesErr(code: seq<Instruction>, labels: seq<int>, n: int, m: int)
    requires 0 <= n <= m <= |code| && BodyBytes(code, labels, n).Err?
    ensures BodyBytes(code, labels, m) == BodyBytes(code, labels, n)
    decreases m - n
  {
    if n < m {
      BodyBytesErr(code, labels, n, m - 1);
    }
  }

  lemma {:induction false} SizeBeforeBelow(code: seq<Instruction>, i: int, j: int)
    requires 0 <= i <= j <= |code|
    ensures SizeBefore(code, i) <= SizeBefore(code, j)
    decreases j - i
  {
    if i < j {
      SizeBeforeBelow(code, i, j - 1);
    }
  }

  /** The emission loop of `generateMethod` for a method with a body. */
  method EmitBody(code: seq<Instruction>, labels: seq<int>) returns (r: Result<seq<int>>)
    ensures r == BodyBytes(code, labels, |code|)
  {
    var bytecodes: seq<int> := [];
    var offset := 0;
    var index := 0;
    while index < |code|
      invariant 0 <= index <= |code| && offset == SizeBefore(code, index)
      invariant BodyBytes(code, labels, index) == Ok(bytecodes)
    {
      var instruction := code[index];
      var ps := UpdateLabels(instruction, labels, code, offset);
      if ps.Err? {
        BodyBytesErr(code, labels, index + 1, |code|);
        return Err(ps.message);
      }
      bytecodes := bytecodes + [instruction.opcode.value] + ps.value;
      offset := offset + InstructionSize(instruction);
      index := index + 1;
    }
    return Ok(bytecodes);
  }

  // ---------------------------------------------------------------- method infos

  /** A method info: the class and full name it came from, its header and its linked bytes. */
  datatype MethodInfo = MethodInfo(className: string, fullName: string, header: Header, bytecodes: seq<int>)

  /** Stack and locals are Java bytes. */
  predicate ValidCode(code: Bytecodes)
  {
    IsByte(code.maxStack) && IsByte(code.maxLocals)
  }

  /** The methods of the package's classes, in declaration order, with their class names; interfaces are skipped. */
  function ClassMethods(objs: seq<Object>): (r: seq<(string, Method)>)
  {
    if objs == [] then []
    else
      var o := objs[|objs| - 1];
      ClassMethods(objs[..|objs| - 1]) +
      (if o.Class? then seq(|o.methods|, k requires 0 <= k < |o.methods| => (o.name, o.methods[k])) else [])
  }

  predicate ValidMethods(ms: seq<(string, Method)>)
  {
    forall k :: 0 <= k < |ms| ==> ValidCode(ms[k].1.code)
  }

  /**
   * `generateMethod`: the header, then either the stub of native method number
   * `nativeIndex` or the linked body. A `void` parameter fails.
   */
  function MethodInfoOf(className: string, m: Method, nativeIndex: int): (r: Result<MethodInfo>)
    requires ValidCode(m.code)
    ensures r.Ok? ==> ValidParameters(m.signature.parameters) && ValidHeader(r.value.header)
    ensures r.Ok? ==> r.value.className == className && r.value.fullName == FullName(m.signature)
    ensures r.Ok? && m.signature.isNative ==> r.value.bytecodes == NativeStub(nativeIndex)
    ensures r.Ok? && !m.signature.isNative ==>
              BodyBytes(m.code.instructions, m.code.labels, |m.code.instructions|) == Ok(r.value.bytecodes)
  {
    match Nargs(m.signature.parameters, m.isStatic)
    case None => Err("Method parameter type is unknown.")
    case Some(nargs) =>
      var header := MethodHeader(m.code, nargs, m.signature.isAbstract);
      if m.signature.isNative then Ok(MethodInfo(className, FullName(m.signature), header, NativeStub(nativeIndex)))
      else
        var body :- BodyBytes(m.code.instructions, m.code.labels, |m.code.instructions|);
        Ok(MethodInfo(className, FullName(m.signature), header, body))
  }

  /** `generateMethod` with the run-wide native list as an explicit accumulator. */
  method GenerateMethod(className: string, m: Method, packageName: string, natives: seq<NativeMethod>)
    returns (r: Result<MethodInfo>, nativesAfter: seq<NativeMethod>)
    requires ValidCode(m.code)
    ensures r == MethodInfoOf(className, m, |natives|)
    ensures nativesAfter == natives + (if r.Ok? && m.signature.isNative then [NativeMethod(packageName, m.signature)] else [])
  {
    nativesAfter := natives;
    var nargs := ComputeNargs(m.signature.parameters, m.isStatic);
    if nargs.None? {
      return Err("Method parameter type is unknown."), natives;
    }
    var header := MethodHeader(m.code, nargs.value, m.signature.isAbstract);
    var bytecodes;
    if m.signature.isNative {
      nativesAfter := natives + [NativeMethod(packageName, m.signature)];
      var number := |nativesAfter| - 1;
      bytecodes := NativeStub(number);
    } else {
      var body := EmitBody(m.code.instructions, m.code.labels);
      if body.Err? {
        return Err(body.message), natives;
      }
      bytecodes := body.value;
    }
    r := Ok(MethodInfo(className, FullName(m.signature), header, bytecodes));
  }

  /** One step of the first constructor loop: the next method's info, and its native entry if any. */
  function AddMethod(prev: (seq<MethodInfo>, seq<NativeMethod>), cm: (string, Method), packageName: string)
    : (r: Result<(seq<MethodInfo>, seq<NativeMethod>)>)
    requires ValidCode(cm.1.code)
    ensures r.Ok? ==> |r.value.0| == |prev.0| + 1 && r.value.0[..|prev.0|] == prev.0 && prev.1 <= r.value.1
    ensures r.Ok? ==> ValidHeader(r.value.0[|prev.0|].header)
  {
    var m := cm.1;
    var info :- MethodInfoOf(cm.0, m, |prev.1|);
    Ok((prev.0 + [info], prev.1 + (if m.signature.isNative then [NativeMethod(packageName, m.signature)] else [])))
  }

  /** The method infos of the first `n` methods and the native list after them. */
  function InfosBefore(ms: seq<(string, Method)>, packageName: string, natives: seq<NativeMethod>, n: int)
    : (r: Result<(seq<MethodInfo>, seq<NativeMethod>)>)
    requires ValidMethods(ms) && 0 <= n <= |ms|
    ensures r.Ok? ==> |r.value.0| == n && natives <= r.value.1 && ValidInfos(r.value.0)
  {
    if n == 0 then Ok(([], natives))
    else
      match InfosBefore(ms, packageName, natives, n - 1)
      case Err(e) => Err(e)
      case Ok(prev) =>
        var r := AddMethod(prev, ms[n - 1], packageName);
        if r.Ok? then
          assert forall j :: 0 <= j < |prev.0| ==> r.value.0[j] == prev.0[j];
          r
        else r
  }

  /** One more method of the first constructor loop. */
  lemma InfosBeforeStep(ms: seq<(string, Method)>, packageName: string, natives: seq<NativeMethod>, k: int,
                        infos: seq<MethodInfo>, ns: seq<NativeMethod>)
    requires ValidMethods(ms) && 0 <= k < |ms| && InfosBefore(ms, packageName, natives, k) == Ok((infos, ns))
    ensures InfosBefore(ms, packageName, natives, k + 1) == AddMethod((infos, ns), ms[k], packageName)
  {
  }

  /** One more method whose info is generated. */
  lemma InfosBeforeNext(ms: seq<(string, Method)>, packageName: string, natives: seq<NativeMethod>, k: int,
                        infos: seq<MethodInfo>, ns: seq<NativeMethod>)
    requires ValidMethods(ms) && 0 <= k < |ms| && InfosBefore(ms, packageName, natives, k) == Ok((infos, ns))
    requires MethodInfoOf(ms[k].0, ms[k].1, |ns|).Ok?
    ensures InfosBefore(ms, packageName, natives, k + 1) ==
              Ok((infos + [MethodInfoOf(ms[k].0, ms[k].1, |ns|).value],
                  ns + (if ms[k].1.signature.isNative then [NativeMethod(packageName, ms[k].1.signature)] else [])))
  {
    InfosBeforeStep(ms, packageName, natives, k, infos, ns);
  }

  /** A method whose info cannot be generated stops the loop with its message. */
  lemma InfosBeforeFails(ms: seq<(string, Method)>, packageName: string, natives: seq<NativeMethod>, k: int,
                         infos: seq<MethodInfo>, ns: seq<NativeMethod>)
    requires ValidMethods(ms) && 0 <= k < |ms| && InfosBefore(ms, packageName, natives, k) == Ok((infos, ns))
    requires MethodInfoOf(ms[k].0, ms[k].1, |ns|).Err?
    ensures InfosBefore(ms, packageName, natives, |ms|) == Err(MethodInfoOf(ms[k].0, ms[k].1, |ns|).message)
  {
    InfosBeforeStep(ms, packageName, natives, k, infos, ns);
    InfosBeforeErr(ms, packageName, natives, k + 1, |ms|);
  }

  /** Once a method fails, every longer prefix fails the same way. */
  lemma {:induction false} InfosBeforeErr(ms: seq<(string, Method)>, packageName: string, natives: seq<NativeMethod>,
                                          n: int, m: int)
    requires ValidMethods(ms) && 0 <= n <= m <= |ms| && InfosBefore(ms, packageName, natives, n).Err?
    ensures InfosBefore(ms, packageName, natives, m) == InfosBefore(ms, packageName, natives, n)
    decreases m - n
  {
    if n < m {
      InfosBeforeErr(ms, packageName, natives, n, m - 1);
    }
  }

  /**
   * Native numbering: the stub of the k-th method, when native, pushes the position
   * in the native list of the entry recorded for that very method.
   */
  lemma {:induction false} NativeNumbering(ms: seq<(string, Method)>, packageName: string, natives: seq<NativeMethod>,
                                           n: int, k: int)
    requires ValidMethods(ms) && 0 <= k < n <= |ms| && InfosBefore(ms, packageName, natives, n).Ok?
    requires ms[k].1.signature.isNative
    ensures var r := InfosBefore(ms, packageName, natives, n).value;
            exists j :: 0 <= j < |r.1| && r.0[k].bytecodes == NativeStub(j) &&
                        r.1[j] == NativeMethod(packageName, ms[k].1.signature)
    decreases n
  {
    var prev := InfosBefore(ms, packageName, natives, n - 1).value;
    var r := InfosBefore(ms, packageName, natives, n).value;
    assert AddMethod(prev, ms[n - 1], packageName) == Ok(r);
    if k < n - 1 {
      NativeNumbering(ms, packageName, natives, n - 1, k);
      var j :| 0 <= j < |prev.1| && prev.0[k].bytecodes == NativeStub(j) &&
               prev.1[j] == NativeMethod(packageName, ms[k].1.signature);
      assert r.0[k] == prev.0[k] && r.1[j] == prev.1[j];
    } else {
      var j := |prev.1|;
      assert r.0[k].bytecodes == NativeStub(j) && r.1[j] == NativeMethod(packageName, ms[k].1.signature);
    }
  }

  /** The first loop of the constructor: one `generateMethod` per class method, in order. */
  method GenerateMethods(ms: seq<(string, Method)>, packageName: string, natives: seq<NativeMethod>)
    returns (r: Result<(seq<MethodInfo>, seq<NativeMethod>)>)
    requires ValidMethods(ms)
    ensures r == InfosBefore(ms, packageName, natives, |ms|)
  {
    var infos: seq<MethodInfo> := [];
    var ns := natives;
    var k := 0;
    while k < |ms|
      invariant 0 <= k <= |ms|
      invariant InfosBefore(ms, packageName, natives, k) == Ok((infos, ns))
    {
      var info, ns' := GenerateMethod(ms[k].0, ms[k].1, packageName, ns);
      if info.Err? {
        InfosBeforeFails(ms, packageName, natives, k, infos, ns);
        return Err(info.message);
      }
      InfosBeforeNext(ms, packageName, natives, k, infos, ns);
      infos, ns := infos + [info.value], ns';
      k := k + 1;
    }
    return Ok((infos, ns));
  }

  // ---------------------------------------------------------------- method bytes and offsets

  predicate ValidInfos(infos: seq<MethodInfo>)
  {
    forall k :: 0 <= k < |infos| ==> ValidHeader(infos[k].header)
  }

  /** The bytes of one method info: its header, then its bytecodes. */
  function InfoBytes(info: MethodInfo): (r: seq<int>)
    requires ValidHeader(info.header)
    ensures |r| == HeaderSize(info.header) + |info.bytecodes|
  {
    HeaderBytes(info.header) + info.bytecodes
  }

  /** The method infos laid end to end. */
  function Generated(infos: seq<MethodInfo>): (r: seq<int>)
    requires ValidInfos(infos)
  {
    if infos == [] then [] else Generated(infos[..|infos| - 1]) + InfoBytes(infos[|infos| - 1])
  }

  /**
   * The offset of method info `k` in the component: the handler count byte, the
   * handler table (8 bytes per handler, the count read as a signed Java byte) and
   * the infos before it.
   */
  function InfoOffset(infos: seq<MethodInfo>, handlerCount: int, k: int): int
    requires ValidInfos(infos) && IsByte(handlerCount) && 0 <= k <= |infos|
  {
    |Generated(infos[..k])| + 8 * SignedByte(handlerCount) + 1
  }

  /** `methodsWithOffsets` after the first `n` infos: each full name maps to the offset of its last info. */
  function OffsetMap(infos: seq<MethodInfo>, handlerCount: int, n: int): map<string, int>
    requires ValidInfos(infos) && IsByte(handlerCount) && 0 <= n <= |infos|
  {
    if n == 0 then map[]
    else OffsetMap(infos, handlerCount, n - 1)[infos[n - 1].fullName := InfoOffset(infos, handlerCount, n - 1)]
  }

  /** A name has an offset iff some info has it, and the offset is that of the last such info. */
  lemma {:induction false} OffsetMapLookup(infos: seq<MethodInfo>, handlerCount: int, n: int, name: string)
    requires ValidInfos(infos) && IsByte(handlerCount) && 0 <= n <= |infos|
    ensures name in OffsetMap(infos, handlerCount, n) <==> exists k :: 0 <= k < n && infos[k].fullName == name
    ensures name in OffsetMap(infos, handlerCount, n) ==>
              exists k :: 0 <= k < n && infos[k].fullName == name &&
                          OffsetMap(infos, handlerCount, n)[name] == InfoOffset(infos, handlerCount, k) &&
                          forall j :: k < j < n ==> infos[j].fullName != name
    decreases n
  {
    if n > 0 {
      OffsetMapLookup(infos, handlerCount, n - 1, name);
      if infos[n - 1].fullName != name && name in OffsetMap(infos, handlerCount, n - 1) {
        var k :| 0 <= k < n - 1 && infos[k].fullName == name &&
                 OffsetMap(infos, handlerCount, n - 1)[name] == InfoOffset(infos, handlerCount, k) &&
                 forall j :: k < j < n - 1 ==> infos[j].fullName != name;
        assert OffsetMap(infos, handlerCount, n)[name] == InfoOffset(infos, handlerCount, k);
      }
    }
  }

  /** Byte `j` of info `k` sits at `|Generated(infos[..k])| + j`. */
  lemma ValidInfosPrefix(infos: seq<MethodInfo>, n: int)
    requires ValidInfos(infos) && 0 <= n <= |infos|
    ensures ValidInfos(infos[..n])
  {
    forall k | 0 <= k < n
      ensures ValidHeader(infos[..n][k].header)
    {
      assert infos[..n][k] == infos[k];
    }
  }

  /** Byte `at` of `g` exists and is `v`. */
  predicate ByteAt(g: seq<int>, at: int, v: int)
  {
    0 <= at < |g| && g[at] == v
  }

  lemma {:induction false} GeneratedAt(infos: seq<MethodInfo>, n: int, k: int, j: int)
    requires ValidInfos(infos) && 0 <= k < n <= |infos| && 0 <= j < |InfoBytes(infos[k])|
    ensures ValidInfos(infos[..n]) && ValidInfos(infos[..k])
    ensures ByteAt(Generated(infos[..n]), |Generated(infos[..k])| + j, InfoBytes(infos[k])[j])
    decreases n
  {
    var init := infos[..n - 1];
    ValidInfosPrefix(infos, n);
    ValidInfosPrefix(infos, n - 1);
    ValidInfosPrefix(infos, k);
    assert infos[..n][..n - 1] == init;
    var g, gi := Generated(infos[..n]), Generated(init);
    assert g == gi + InfoBytes(infos[n - 1]);
    if k < n - 1 {
      GeneratedAt(infos, n - 1, k, j);
      var at := |Generated(infos[..k])| + j;
      assert at < |gi| && g[at] == gi[at];
    } else {
      assert init == infos[..k];
      assert g[|gi| + j] == InfoBytes(infos[n - 1])[j];
    }
  }

  // ---------------------------------------------------------------- exception handlers

  /** An exception handler entry: start offset, stop bit and active length, handler offset, catch type. */
  datatype HandlerInfo = HandlerInfo(startOffset: int, bitfield: int, handlerOffset: int, catchTypeIndex: int,
                                     fullMethodName: string)

  /** The stop bit of handler `i`: 0 when a later handler of the same method encloses its range, else 1. */
  function StopBit(hs: seq<Handler>, i: int): (r: int)
    requires 0 <= i < |hs|
    ensures r == 0 || r == 1
    ensures r == 1 <==> forall j :: i < j < |hs| ==> !IsIncludedIn(hs[i], hs[j])
  {
    if exists j :: i < j < |hs| && IsIncludedIn(hs[i], hs[j]) then 0 else 1
  }

  /** The last handler of a method always carries the stop bit. */
  lemma LastHandlerStops(hs: seq<Handler>)
    requires |hs| > 0
    ensures StopBit(hs, |hs| - 1) == 1
  {
  }

  /**
   * The bytes of the instructions from the start label's instruction up to the end
   * label's; a range that does not ascend is empty; one that leaves the body fails.
   */
  function ActiveLength(labels: seq<int>, code: seq<Instruction>, h: Handler): (r: Option<int>)
    ensures r.Some? ==> r.value >= 0
  {
    if !(0 <= h.startLabel < |labels|) || !(0 <= h.endLabel < |labels|) then None
    else
      var lo, hi := labels[h.startLabel], labels[h.endLabel];
      if lo >= hi then Some(0)
      else if lo < 0 || hi > |code| then None
      else Some(SizeBetween(code, lo, hi))
  }

  /** `(short)((stop << 15) | active_length)` with `active_length` a Java short. */
  function Bitfield(stop: int, activeLength: int): (r: int)
    requires stop == 0 || stop == 1
    ensures 0 <= r < 65536
    ensures ToShort(activeLength) < 32768 ==> r / 32768 == stop && r % 32768 == ToShort(activeLength)
  {
    var al := ToShort(activeLength);
    if al >= 32768 then al else stop * 32768 + al
  }

  /**
   * `generateExceptionHandler` for handler `i` of method `m` whose first bytecode
   * is at `base`: the offsets of the start and handler labels from `base`, the stop
   * bit and active length, and the catch type index.
   */
  function HandlerInfoAt(m: Method, i: int, base: int): (r: Result<HandlerInfo>)
    requires 0 <= i < |m.code.handlers|
    ensures r.Ok? ==> var h := m.code.handlers[i];
      && LabelTarget(m.code.labels, m.code.instructions, h.startLabel).Some?
      && LabelTarget(m.code.labels, m.code.instructions, h.handlerLabel).Some?
      && r.value.startOffset == base + LabelTarget(m.code.labels, m.code.instructions, h.startLabel).value
      && r.value.handlerOffset == base + LabelTarget(m.code.labels, m.code.instructions, h.handlerLabel).value
      && r.value.catchTypeIndex == h.catchTypeIndex && r.value.fullMethodName == FullName(m.signature)
  {
    var code, labels, h := m.code.instructions, m.code.labels, m.code.handlers[i];
    match (LabelTarget(labels, code, h.startLabel), ActiveLength(labels, code, h),
           LabelTarget(labels, code, h.handlerLabel))
    case (Some(start), Some(al), Some(handler)) =>
      Ok(HandlerInfo(base + start, Bitfield(StopBit(m.code.handlers, i), al), base + handler, h.catchTypeIndex,
                     FullName(m.signature)))
    case _ => Err("IndexOutOfBoundsException")
  }

  /** The active-length loop of `generateExceptionHandler`. */
  method ComputeActiveLength(labels: seq<int>, code: seq<Instruction>, h: Handler) returns (r: Option<int>)
    ensures r == ActiveLength(labels, code, h)
  {
    if !(0 <= h.startLabel < |labels|) || !(0 <= h.endLabel < |labels|) {
      return None;
    }
    var activeLength := 0;
    var index := labels[h.startLabel];
    while index < labels[h.endLabel]
      invariant labels[h.startLabel] <= index
      invariant index > labels[h.startLabel] ==> 0 <= labels[h.startLabel] && index <= labels[h.endLabel] <= |code|
      invariant index > labels[h.startLabel] ==> activeLength == SizeBetween(code, labels[h.startLabel], index)
      invariant index == labels[h.startLabel] ==> activeLength == 0
      decreases labels[h.endLabel] - index
    {
      if index < 0 || index >= |code| || labels[h.endLabel] > |code| {
        return None;
      }
      activeLength := activeLength + InstructionSize(code[index]);
      index := index + 1;
    }
    return Some(activeLength);
  }

  /** The stop-bit loop of `generateExceptionHandler`: the first later enclosing handler clears it. */
  method ComputeStopBit(hs: seq<Handler>, i: int) returns (stop: int)
    requires 0 <= i < |hs|
    ensures stop == StopBit(hs, i)
  {
    stop := 1;
    var index := i + 1;
    while index < |hs|
      invariant i + 1 <= index <= |hs|
      invariant forall j :: i < j < index ==> !IsIncludedIn(hs[i], hs[j])
    {
      if IsIncludedIn(hs[i], hs[index]) {
        stop := 0;
        break;
      }
      index := index + 1;
    }
  }

  /** `generateExceptionHandler` with its four loops, given the first bytecode offset `base`. */
  method GenerateHandler(m: Method, i: int, base: int) returns (r: Result<HandlerInfo>)
    requires 0 <= i < |m.code.handlers|
    ensures r == HandlerInfoAt(m, i, base)
  {
    var code, labels, h := m.code.instructions, m.code.labels, m.code.handlers[i];
    var okStart, start := LabelOffset(labels, code, h.startLabel, -base);
    if !okStart {
      return Err("IndexOutOfBoundsException");
    }
    var activeLength := ComputeActiveLength(labels, code, h);
    if activeLength.None? {
      return Err("IndexOutOfBoundsException");
    }
    var stop := ComputeStopBit(m.code.handlers, i);
    var bitfield := Bitfield(stop, activeLength.value);
    var okHandler, handler := LabelOffset(labels, code, h.handlerLabel, -base);
    if !okHandler {
      return Err("IndexOutOfBoundsException");
    }
    return Ok(HandlerInfo(start, bitfield, handler, h.catchTypeIndex, FullName(m.signature)));
  }

  /**
   * As written, the first bytecode of a method is taken 4 bytes past its recorded
   * offset only when its stack or locals, compared as signed Java bytes, exceed 255.
   */
  function CodeBaseAsWritten(offsets: map<string, int>, m: Method): (r: Result<int>)
    requires ValidCode(m.code)
  {
    if FullName(m.signature) !in offsets then Err("Unable to find method offset")
    else
      var ext := SignedByte(m.code.maxStack) > 255 || SignedByte(m.code.maxLocals) > 255;
      Ok(offsets[FullName(m.signature)] + (if ext then 4 else 2))
  }

  /** The test never holds, so the header is always taken to be 2 bytes long. */
  lemma CodeBaseAsWrittenIsTwo(offsets: map<string, int>, m: Method)
    requires ValidCode(m.code) && FullName(m.signature) in offsets
    ensures CodeBaseAsWritten(offsets, m) == Ok(offsets[FullName(m.signature)] + 2)
  {
  }

  /** The offset of a method's first bytecode: its recorded offset plus the size of its header. */
  function CodeBase(offsets: map<string, int>, info: MethodInfo): (r: Result<int>)
    requires ValidHeader(info.header)
    ensures r.Ok? <==> info.fullName in offsets
    ensures r.Ok? ==> r.value == offsets[info.fullName] + HeaderSize(info.header)
  {
    if info.fullName !in offsets then Err("Unable to find method offset")
    else Ok(offsets[info.fullName] + HeaderSize(info.header))
  }

  /** The entries of the first `n` handlers of a method whose first bytecode is at `base`. */
  function MethodHandlers(m: Method, base: int, n: int): (r: Result<seq<HandlerInfo>>)
    requires 0 <= n <= |m.code.handlers|
    ensures r.Ok? ==> |r.value| == n
  {
    if n == 0 then Ok([])
    else
      var init :- MethodHandlers(m, base, n - 1);
      var e :- HandlerInfoAt(m, n - 1, base);
      Ok(init + [e])
  }

  lemma {:induction false} MethodHandlersErr(m: Method, base: int, n: int, k: int)
    requires 0 <= n <= k <= |m.code.handlers| && MethodHandlers(m, base, n).Err?
    ensures MethodHandlers(m, base, k) == MethodHandlers(m, base, n)
    decreases k - n
  {
    if n < k {
      MethodHandlersErr(m, base, n, k - 1);
    }
  }

  /** One more handler entry. */
  lemma MethodHandlersStep(m: Method, base: int, n: int, entries: seq<HandlerInfo>)
    requires 0 <= n < |m.code.handlers| && MethodHandlers(m, base, n) == Ok(entries)
    ensures var e := HandlerInfoAt(m, n, base);
            MethodHandlers(m, base, n + 1) == if e.Err? then Err(e.message) else Ok(entries + [e.value])
  {
  }

  /** The inner loop of the constructor's handler phase: one entry per handler of one method. */
  method GenerateMethodHandlers(m: Method, base: int) returns (r: Result<seq<HandlerInfo>>)
    ensures r == MethodHandlers(m, base, |m.code.handlers|)
  {
    var entries: seq<HandlerInfo> := [];
    var index := 0;
    while index < |m.code.handlers|
      invariant 0 <= index <= |m.code.handlers|
      invariant MethodHandlers(m, base, index) == Ok(entries)
    {
      var e := GenerateHandler(m, index, base);
      MethodHandlersStep(m, base, index, entries);
      if e.Err? {
        MethodHandlersErr(m, base, index + 1, |m.code.handlers|);
        return Err(e.message);
      }
      entries := entries + [e.value];
      index := index + 1;
    }
    return Ok(entries);
  }

  /**
   * The handler entries of the first `n` methods: abstract methods are skipped, and
   * a method's offset is looked up only when it has a handler.
   */
  function HandlersBefore(ms: seq<(string, Method)>, infos: seq<MethodInfo>, offsets: map<string, int>, n: int)
    : (r: Result<seq<HandlerInfo>>)
    requires |infos| == |ms| && ValidInfos(infos) && 0 <= n <= |ms|
  {
    if n == 0 then Ok([])
    else
      var init :- HandlersBefore(ms, infos, offsets, n - 1);
      var m := ms[n - 1].1;
      if m.signature.isAbstract || |m.code.handlers| == 0 then Ok(init)
      else
        var base :- CodeBase(offsets, infos[n - 1]);
        var es :- MethodHandlers(m, base, |m.code.handlers|);
        Ok(init + es)
  }

  lemma {:induction false} HandlersBeforeErr(ms: seq<(string, Method)>, infos: seq<MethodInfo>,
                                             offsets: map<string, int>, n: int, k: int)
    requires |infos| == |ms| && ValidInfos(infos) && 0 <= n <= k <= |ms|
    requires HandlersBefore(ms, infos, offsets, n).Err?
    ensures HandlersBefore(ms, infos, offsets, k) == HandlersBefore(ms, infos, offsets, n)
    decreases k - n
  {
    if n < k {
      HandlersBeforeErr(ms, infos, offsets, n, k - 1);
    }
  }

  /** The second loop of the constructor: the handler entries of every non-abstract method, in order. */
  method GenerateHandlers(ms: seq<(string, Method)>, infos: seq<MethodInfo>, offsets: map<string, int>)
    returns (r: Result<seq<HandlerInfo>>)
    requires |infos| == |ms| && ValidInfos(infos)
    ensures r == HandlersBefore(ms, infos, offsets, |ms|)
  {
    var entries: seq<HandlerInfo> := [];
    var k := 0;
    while k < |ms|
      invariant 0 <= k <= |ms|
      invariant HandlersBefore(ms, infos, offsets, k) == Ok(entries)
    {
      var m := ms[k].1;
      if !m.signature.isAbstract && |m.code.handlers| > 0 {
        var base := CodeBase(offsets, infos[k]);
        if base.Err? {
          HandlersBeforeErr(ms, infos, offsets, k + 1, |ms|);
          return Err(base.message);
        }
        var es := GenerateMethodHandlers(m, base.value);
        if es.Err? {
          HandlersBeforeErr(ms, infos, offsets, k + 1, |ms|);
          return Err(es.message);
        }
        entries := entries + es.value;
      }
      k := k + 1;
    }
    return Ok(entries);
  }

  /** `exception_handler_count` before its cast: the handlers of every class method. */
  function HandlerTotal(ms: seq<(string, Method)>): (r: nat)
  {
    if ms == [] then 0 else HandlerTotal(ms[..|ms| - 1]) + |ms[|ms| - 1].1.code.handlers|
  }

  /** The counting in the constructor's first loop. */
  method CountHandlers(ms: seq<(string, Method)>) returns (total: int)
    ensures total == HandlerTotal(ms)
  {
    total := 0;
    var k := 0;
    while k < |ms|
      invariant 0 <= k <= |ms| && total == HandlerTotal(ms[..k])
    {
      assert ms[..k + 1][..k] == ms[..k];
      total := total + |ms[k].1.code.handlers|;
      k := k + 1;
    }
    assert ms[..k] == ms;
  }

  /** The opcode of instruction `j` of info `k` lies past the infos before it and its header. */
  lemma OpcodeInGenerated(infos: seq<MethodInfo>, k: int, code: seq<Instruction>, labels: seq<int>, j: int)
    requires ValidInfos(infos) && 0 <= k < |infos| && 0 <= j < |code|
    requires BodyBytes(code, labels, |code|) == Ok(infos[k].bytecodes)
    ensures ByteAt(Generated(infos), |Generated(infos[..k])| + HeaderSize(infos[k].header) + SizeBefore(code, j),
                   code[j].opcode.value)
  {
    var b, sb := infos[k].bytecodes, SizeBefore(code, j);
    BodyOpcodeAt(code, labels, |code|, j);
    assert sb < |b| && b[sb] == code[j].opcode.value;
    var h := HeaderSize(infos[k].header);
    var ib := InfoBytes(infos[k]);
    assert ib == HeaderBytes(infos[k].header) + b;
    assert ib[h + sb] == b[sb];
    assert infos[..|infos|] == infos;
    GeneratedAt(infos, |infos|, k, h + sb);
  }

  /**
   * A handler's start offset designates the opcode of the instruction its start
   * label marks, once the handler count byte and table are skipped: the offset is
   * taken from the first bytecode, past a header of the method's own size.
   */
  lemma HandlerStartAtOpcode(infos: seq<MethodInfo>, handlerCount: int, k: int, m: Method, i: int)
    requires ValidInfos(infos) && IsByte(handlerCount) && 0 <= k < |infos| && 0 <= i < |m.code.handlers|
    requires BodyBytes(m.code.instructions, m.code.labels, |m.code.instructions|) == Ok(infos[k].bytecodes)
    requires forall j :: k < j < |infos| ==> infos[j].fullName != infos[k].fullName
    requires var l := m.code.handlers[i].startLabel; 0 <= l < |m.code.labels| && 0 <= m.code.labels[l] < |m.code.instructions|
    ensures var offsets := OffsetMap(infos, handlerCount, |infos|);
            CodeBase(offsets, infos[k]).Ok? &&
            StartDesignates(infos, handlerCount, m, i, CodeBase(offsets, infos[k]).value)
  {
    var offsets := OffsetMap(infos, handlerCount, |infos|);
    OffsetOfLast(infos, handlerCount, k);
    var base := CodeBase(offsets, infos[k]).value;
    assert base == InfoOffset(infos, handlerCount, k) + HeaderSize(infos[k].header);
    HandlerStartFrom(infos, handlerCount, k, m, i, base);
  }

  /**
   * When handler `i`'s entry resolves with the method's first bytecode at `base`, its
   * start offset, less the handler count byte and table, designates the opcode of the
   * instruction its start label marks.
   */
  predicate StartDesignates(infos: seq<MethodInfo>, handlerCount: int, m: Method, i: int, base: int)
    requires ValidInfos(infos) && IsByte(handlerCount) && 0 <= i < |m.code.handlers|
    requires var l := m.code.handlers[i].startLabel; 0 <= l < |m.code.labels| && 0 <= m.code.labels[l] < |m.code.instructions|
  {
    HandlerInfoAt(m, i, base).Ok? ==>
      var p := HandlerInfoAt(m, i, base).value.startOffset - 8 * SignedByte(handlerCount) - 1;
      0 <= p < |Generated(infos)| &&
      Generated(infos)[p] == m.code.instructions[m.code.labels[m.code.handlers[i].startLabel]].opcode.value
  }

  /** `HandlerStartAtOpcode` for the method's first bytecode at `base`. */
  lemma HandlerStartFrom(infos: seq<MethodInfo>, handlerCount: int, k: int, m: Method, i: int, base: int)
    requires ValidInfos(infos) && IsByte(handlerCount) && 0 <= k < |infos| && 0 <= i < |m.code.handlers|
    requires BodyBytes(m.code.instructions, m.code.labels, |m.code.instructions|) == Ok(infos[k].bytecodes)
    requires var l := m.code.handlers[i].startLabel; 0 <= l < |m.code.labels| && 0 <= m.code.labels[l] < |m.code.instructions|
    requires base == InfoOffset(infos, handlerCount, k) + HeaderSize(infos[k].header)
    ensures StartDesignates(infos, handlerCount, m, i, base)
  {
    var l := m.code.handlers[i].startLabel;
    var j := m.code.labels[l];
    assert LabelTarget(m.code.labels, m.code.instructions, l) == Some(SizeBefore(m.code.instructions, j));
    var info := HandlerInfoAt(m, i, base);
    if info.Ok? {
      OffsetDesignates(infos, handlerCount, k, m.code.instructions, m.code.labels, j, info.value.startOffset);
    }
  }

  /** An offset past the header of info `k` and `j` instructions designates instruction `j`'s opcode. */
  lemma OffsetDesignates(infos: seq<MethodInfo>, handlerCount: int, k: int, code: seq<Instruction>, labels: seq<int>,
                         j: int, offset: int)
    requires ValidInfos(infos) && IsByte(handlerCount) && 0 <= k < |infos| && 0 <= j < |code|
    requires BodyBytes(code, labels, |code|) == Ok(infos[k].bytecodes)
    requires offset == InfoOffset(infos, handlerCount, k) + HeaderSize(infos[k].header) + SizeBefore(code, j)
    ensures var p := offset - 8 * SignedByte(handlerCount) - 1;
            0 <= p < |Generated(infos)| && Generated(infos)[p] == code[j].opcode.value
  {
    var at := |Generated(infos[..k])| + HeaderSize(infos[k].header) + SizeBefore(code, j);
    OpcodeInGenerated(infos, k, code, labels, j);
    assert offset - 8 * SignedByte(handlerCount) - 1 == at;
  }

  /** The offset recorded for the last info of a full name is that info's offset. */
  lemma OffsetOfLast(infos: seq<MethodInfo>, handlerCount: int, k: int)
    requires ValidInfos(infos) && IsByte(handlerCount) && 0 <= k < |infos|
    requires forall j :: k < j < |infos| ==> infos[j].fullName != infos[k].fullName
    ensures var offsets := OffsetMap(infos, handlerCount, |infos|);
            infos[k].fullName in offsets && offsets[infos[k].fullName] == InfoOffset(infos, handlerCount, k)
  {
    var offsets := OffsetMap(infos, handlerCount, |infos|);
    OffsetMapLookup(infos, handlerCount, |infos|, infos[k].fullName);
    var k' :| 0 <= k' < |infos| && infos[k'].fullName == infos[k].fullName &&
              offsets[infos[k].fullName] == InfoOffset(infos, handlerCount, k') &&
              forall j :: k' < j < |infos| ==> infos[j].fullName != infos[k].fullName;
    assert k' == k;
  }

  /** The infos before `n` take at least the bytes of the infos before `k` and of info `k`. */
  lemma {:induction false} GeneratedGrows(infos: seq<MethodInfo>, k: int, n: int)
    requires ValidInfos(infos) && 0 <= k < n <= |infos|
    ensures ValidInfos(infos[..n]) && ValidInfos(infos[..k])
    ensures |Generated(infos[..n])| >= |Generated(infos[..k])| + |InfoBytes(infos[k])|
    decreases n
  {
    ValidInfosPrefix(infos, n);
    ValidInfosPrefix(infos, k);
    ValidInfosPrefix(infos, n - 1);
    assert infos[..n][..n - 1] == infos[..n - 1];
    assert Generated(infos[..n]) == Generated(infos[..n - 1]) + InfoBytes(infos[n - 1]);
    if n - 1 > k {
      GeneratedGrows(infos, k, n - 1);
    }
  }

  /**
   * The offsets are keyed by the full name alone, so when a later info (of another
   * class) shares info `k`'s full name, the offset recorded for that name lies past
   * all of info `k`'s bytes: the handler base of method `k` falls outside method `k`.
   */
  lemma SharedFullNameOffsetAsWritten(infos: seq<MethodInfo>, handlerCount: int, k: int, j: int)
    requires ValidInfos(infos) && IsByte(handlerCount) && 0 <= k < j < |infos|
    requires infos[j].fullName == infos[k].fullName
    ensures var offsets := OffsetMap(infos, handlerCount, |infos|);
            infos[k].fullName in offsets &&
            offsets[infos[k].fullName] >= InfoOffset(infos, handlerCount, k) + |InfoBytes(infos[k])|
  {
    var name := infos[k].fullName;
    var offsets := OffsetMap(infos, handlerCount, |infos|);
    OffsetMapLookup(infos, handlerCount, |infos|, name);
    var k' :| 0 <= k' < |infos| && infos[k'].fullName == name &&
              offsets[name] == InfoOffset(infos, handlerCount, k') &&
              forall i :: k' < i < |infos| ==> infos[i].fullName != name;
    assert k' >= j;
    GeneratedGrows(infos, k, k');
  }

  // ---------------------------------------------------------------- relocation indices

  /** The field access instructions whose 1-byte operand is a constant pool index. */
  predicate OneByteIndexOp(op: Opcode)
  {
    op.value in {GETFIELD_A.value, GETFIELD_B.value, GETFIELD_S.value, GETFIELD_I.value,
                 GETFIELD_A_THIS.value, GETFIELD_B_THIS.value, GETFIELD_S_THIS.value, GETFIELD_I_THIS.value,
                 PUTFIELD_A.value, PUTFIELD_B.value, PUTFIELD_S.value, PUTFIELD_I.value,
                 PUTFIELD_A_THIS.value, PUTFIELD_B_THIS.value, PUTFIELD_S_THIS.value, PUTFIELD_I_THIS.value}
  }

  /**
   * Where an instruction's 2-byte constant pool index starts, counted from its opcode:
   * 2 after the type or argument byte of `checkcast`, `instanceof` and `invokeinterface`,
   * 1 for the other instructions with such an index, 0 for none.
   */
  function TwoByteIndexShift(op: Opcode): (r: int)
    ensures 0 <= r <= 2
  {
    if op.value in {CHECKCAST.value, INSTANCEOF.value, INVOKEINTERFACE.value} then 2
    else if op.value in {ANEWARRAY.value, NEW.value, INVOKESPECIAL.value, INVOKESTATIC.value, INVOKEVIRTUAL.value,
                         GETFIELD_A_W.value, GETFIELD_B_W.value, GETFIELD_S_W.value, GETFIELD_I_W.value,
                         PUTFIELD_A_W.value, PUTFIELD_B_W.value, PUTFIELD_S_W.value, PUTFIELD_I_W.value,
                         GETSTATIC_A.value, GETSTATIC_B.value, GETSTATIC_S.value, GETSTATIC_I.value,
                         PUTSTATIC_A.value, PUTSTATIC_B.value, PUTSTATIC_S.value, PUTSTATIC_I.value} then 1
    else 0
  }

  function IndexShift(op: Opcode, twoByte: bool): (r: int)
    ensures 0 <= r <= 2
  {
    if twoByte then TwoByteIndexShift(op) else if OneByteIndexOp(op) then 1 else 0
  }

  /** The component offsets of the token operands among the first `n` instructions, code starting at `base`. */
  function Sites(code: seq<Instruction>, base: int, twoByte: bool, n: int): (r: seq<int>)
    requires 0 <= n <= |code|
    ensures |r| <= n
  {
    if n == 0 then []
    else
      var shift := IndexShift(code[n - 1].opcode, twoByte);
      Sites(code, base, twoByte, n - 1) + (if shift > 0 then [base + SizeBefore(code, n - 1) + shift] else [])
  }

  /**
   * Every listed offset is an operand of a listed instruction: it lies `shift` bytes
   * past that instruction's opcode, inside the instruction.
   */
  lemma {:induction false} SitesInside(code: seq<Instruction>, base: int, twoByte: bool, n: int, s: int)
    requires 0 <= n <= |code| && s in Sites(code, base, twoByte, n)
    ensures exists j :: 0 <= j < n && IndexShift(code[j].opcode, twoByte) > 0 &&
                        s == base + SizeBefore(code, j) + IndexShift(code[j].opcode, twoByte)
    decreases n
  {
    var shift := IndexShift(code[n - 1].opcode, twoByte);
    if s in Sites(code, base, twoByte, n - 1) {
      SitesInside(code, base, twoByte, n - 1, s);
    } else {
      assert shift > 0 && s == base + SizeBefore(code, n - 1) + shift;
    }
  }

  /** The instruction loop of `get1ByteIndices` and `get2ByteIndices` for one method. */
  method MethodSites(code: seq<Instruction>, base: int, twoByte: bool) returns (sites: seq<int>)
    ensures sites == Sites(code, base, twoByte, |code|)
  {
    sites := [];
    var offset := base;
    var k := 0;
    while k < |code|
      invariant 0 <= k <= |code| && offset == base + SizeBefore(code, k)
      invariant sites == Sites(code, base, twoByte, k)
    {
      var shift := IndexShift(code[k].opcode, twoByte);
      if shift > 0 {
        sites := sites + [offset + shift];
      }
      offset := offset + InstructionSize(code[k]);
      k := k + 1;
    }
  }

  /**
   * The first bytecode of a method as the index lists locate it: its recorded offset
   * plus the header `generateMethod` chose for it. A missing offset or a `void`
   * parameter fails.
   */
  function IndexBase(offsets: map<string, int>, m: Method): (r: Result<int>)
    requires ValidCode(m.code)
  {
    if FullName(m.signature) !in offsets then Err("NullPointerException")
    else match Nargs(m.signature.parameters, m.isStatic)
      case None => Err("Method parameter type is unknown.")
      case Some(nargs) =>
        Ok(offsets[FullName(m.signature)] + HeaderSize(MethodHeader(m.code, nargs, m.signature.isAbstract)))
  }

  /** As written, the index lists also assume a 2-byte header whenever the method has an offset. */
  function IndexBaseAsWritten(offsets: map<string, int>, m: Method): (r: Result<int>)
    requires ValidCode(m.code)
    ensures r.Ok? ==> FullName(m.signature) in offsets && r.value == offsets[FullName(m.signature)] + 2
  {
    if FullName(m.signature) !in offsets then Err("NullPointerException")
    else match Nargs(m.signature.parameters, m.isStatic)
      case None => Err("Method parameter type is unknown.")
      case Some(nargs) =>
        var ext := SignedByte(m.code.maxLocals) > 255 || SignedByte(m.code.maxStack) > 255 || SignedByte(nargs) > 255;
        Ok(offsets[FullName(m.signature)] + (if ext then 4 else 2))
  }

  /** For the method an info came from, the index base is the info's offset past its own header. */
  lemma IndexBaseOfInfo(offsets: map<string, int>, className: string, m: Method, nativeIndex: int)
    requires ValidCode(m.code) && MethodInfoOf(className, m, nativeIndex).Ok?
    requires FullName(m.signature) in offsets
    ensures var info := MethodInfoOf(className, m, nativeIndex).value;
            IndexBase(offsets, m) == CodeBase(offsets, info) &&
            IndexBase(offsets, m) == Ok(offsets[info.fullName] + HeaderSize(info.header))
  {
  }

  /** As written, a method with an extended header has its index offsets 2 bytes short. */
  lemma IndexBaseAsWrittenShort(offsets: map<string, int>, m: Method)
    requires ValidCode(m.code) && IndexBase(offsets, m).Ok?
    requires NeedsExtended(m.code.maxStack, m.code.maxLocals, Nargs(m.signature.parameters, m.isStatic).value)
    ensures IndexBaseAsWritten(offsets, m).Ok?
    ensures IndexBaseAsWritten(offsets, m).value == IndexBase(offsets, m).value - 2
  {
  }

  /** The index offsets of one method. */
  function MethodSiteList(offsets: map<string, int>, m: Method, twoByte: bool): (r: Result<seq<int>>)
    requires ValidCode(m.code)
  {
    var base :- IndexBase(offsets, m);
    Ok(Sites(m.code.instructions, base, twoByte, |m.code.instructions|))
  }

  /** The index offsets of the first `n` methods. */
  function SitesBefore(ms: seq<(string, Method)>, offsets: map<string, int>, twoByte: bool, n: int)
    : (r: Result<seq<int>>)
    requires ValidMethods(ms) && 0 <= n <= |ms|
  {
    if n == 0 then Ok([])
    else
      match SitesBefore(ms, offsets, twoByte, n - 1)
      case Err(e) => Err(e)
      case Ok(init) =>
        match MethodSiteList(offsets, ms[n - 1].1, twoByte)
        case Err(e) => Err(e)
        case Ok(more) => Ok(init + more)
  }

  /** One more method whose operand sites start at `base`. */
  lemma SitesBeforeNext(ms: seq<(string, Method)>, offsets: map<string, int>, twoByte: bool, k: int,
                        sites: seq<int>, base: int, more: seq<int>)
    requires ValidMethods(ms) && 0 <= k < |ms| && SitesBefore(ms, offsets, twoByte, k) == Ok(sites)
    requires IndexBase(offsets, ms[k].1) == Ok(base)
    requires more == Sites(ms[k].1.code.instructions, base, twoByte, |ms[k].1.code.instructions|)
    ensures SitesBefore(ms, offsets, twoByte, k + 1) == Ok(sites + more)
  {
  }

  /** A method without a code base stops the collection with its message. */
  lemma SitesBeforeFails(ms: seq<(string, Method)>, offsets: map<string, int>, twoByte: bool, k: int, sites: seq<int>)
    requires ValidMethods(ms) && 0 <= k < |ms| && SitesBefore(ms, offsets, twoByte, k) == Ok(sites)
    requires MethodSiteList(offsets, ms[k].1, twoByte).Err?
    ensures SitesBefore(ms, offsets, twoByte, |ms|) == MethodSiteList(offsets, ms[k].1, twoByte)
  {
    var e := MethodSiteList(offsets, ms[k].1, twoByte);
    assert SitesBefore(ms, offsets, twoByte, k + 1) == e by {
      assert SitesBefore(ms, offsets, twoByte, k + 1) == Err(e.message);
    }
    SitesBeforeErr(ms, offsets, twoByte, k + 1, |ms|);
  }

  lemma {:induction false} SitesBeforeErr(ms: seq<(string, Method)>, offsets: map<string, int>, twoByte: bool,
                                          n: int, k: int)
    requires ValidMethods(ms) && 0 <= n <= k <= |ms| && SitesBefore(ms, offsets, twoByte, n).Err?
    ensures SitesBefore(ms, offsets, twoByte, k) == SitesBefore(ms, offsets, twoByte, n)
    decreases k - n
  {
    if n < k {
      SitesBeforeErr(ms, offsets, twoByte, n, k - 1);
    }
  }

  /** The method loop shared by `get1ByteIndices` and `get2ByteIndices`. */
  method CollectSites(ms: seq<(string, Method)>, offsets: map<string, int>, twoByte: bool)
    returns (r: Result<seq<int>>)
    requires ValidMethods(ms)
    ensures r == SitesBefore(ms, offsets, twoByte, |ms|)
  {
    var sites: seq<int> := [];
    var k := 0;
    while k < |ms|
      invariant 0 <= k <= |ms|
      invariant SitesBefore(ms, offsets, twoByte, k) == Ok(sites)
    {
      var m := ms[k].1;
      var base := IndexBase(offsets, m);
      if base.Err? {
        assert MethodSiteList(offsets, m, twoByte) == Err(base.message);
        SitesBeforeFails(ms, offsets, twoByte, k, sites);
        return Err(base.message);
      }
      var more := MethodSites(m.code.instructions, base.value, twoByte);
      SitesBeforeNext(ms, offsets, twoByte, k, sites, base.value, more);
      sites := sites + more;
      k := k + 1;
    }
    return Ok(sites);
  }

  /** The offsets of the catch type indices: past the count byte and 6 bytes into each 8-byte entry. */
  function CatchTypeSites(handlerCount: int): (r: seq<int>)
    requires handlerCount >= 0
    ensures |r| == handlerCount
    ensures forall k :: 0 <= k < handlerCount ==> r[k] == 1 + 8 * k + 6
  {
    seq(handlerCount, k requires 0 <= k < handlerCount => k * 8 + 3 * 2 + 1)
  }

  /** `get1ByteIndices`. */
  method OneByteIndices(ms: seq<(string, Method)>, offsets: map<string, int>) returns (r: Result<seq<int>>)
    requires ValidMethods(ms)
    ensures r == SitesBefore(ms, offsets, false, |ms|)
  {
    r := CollectSites(ms, offsets, false);
  }

  /** `get2ByteIndices`: the catch type index of every handler entry, then the method operands. */
  method TwoByteIndices(ms: seq<(string, Method)>, offsets: map<string, int>, handlers: seq<HandlerInfo>)
    returns (r: Result<seq<int>>)
    requires ValidMethods(ms)
    ensures SitesBefore(ms, offsets, true, |ms|).Ok? <==> r.Ok?
    ensures r.Ok? ==> r.value == CatchTypeSites(|handlers|) + SitesBefore(ms, offsets, true, |ms|).value
  {
    var entries: seq<int> := [];
    var index := 0;
    while index < |handlers|
      invariant 0 <= index <= |handlers| && entries == CatchTypeSites(index)
    {
      entries := entries + [index * 8 + 3 * 2 + 1];
      index := index + 1;
    }
    var sites := CollectSites(ms, offsets, true);
    if sites.Err? {
      return Err(sites.message);
    }
    return Ok(entries + sites.value);
  }

  /** The method component and the state `generateMethodBytecodes` fills in. */
  class MethodComponent {
    var handlerCount: int
    var infos: seq<MethodInfo>
    var generated: seq<int>
    var methodsWithOffsets: map<string, int>
    var handlers: seq<HandlerInfo>
    var size: int

    constructor (infos: seq<MethodInfo>, handlerCount: int)
      ensures this.infos == infos && this.handlerCount == handlerCount
      ensures generated == [] && methodsWithOffsets == map[] && handlers == [] && size == 0
    {
      this.infos := infos;
      this.handlerCount := handlerCount;
      generated := [];
      methodsWithOffsets := map[];
      handlers := [];
      size := 0;
    }

    /**
     * `generateMethodBytecodes`: records each method's offset under its full name
     * and appends its header and bytecodes.
     */
    method GenerateMethodBytecodes()
      requires ValidInfos(infos) && IsByte(handlerCount) && generated == []
      modifies this
      ensures infos == old(infos) && handlerCount == old(handlerCount)
      ensures handlers == old(handlers) && size == old(size)
      ensures generated == Generated(infos)
      ensures methodsWithOffsets == OffsetMap(infos, handlerCount, |infos|)
    {
      generated, methodsWithOffsets := AppendInfos(infos, handlerCount);
    }
  }

  /** One more info: its bytes are appended and its name mapped to the offset it starts at. */
  lemma AppendInfoStep(methods: seq<MethodInfo>, count: int, k: int)
    requires ValidInfos(methods) && IsByte(count) && 0 <= k < |methods|
    ensures ValidInfos(methods[..k + 1])
    ensures Generated(methods[..k + 1]) == Generated(methods[..k]) + HeaderBytes(methods[k].header) + methods[k].bytecodes
    ensures OffsetMap(methods, count, k + 1) ==
              OffsetMap(methods, count, k)[methods[k].fullName := |Generated(methods[..k])| + 8 * SignedByte(count) + 1]
  {
    assert methods[..k + 1][..k] == methods[..k];
  }

  /** The loop of `generateMethodBytecodes`, over the infos and the handler count. */
  method AppendInfos(methods: seq<MethodInfo>, count: int) returns (generated: seq<int>, offsets: map<string, int>)
    requires ValidInfos(methods) && IsByte(count)
    ensures generated == Generated(methods)
    ensures offsets == OffsetMap(methods, count, |methods|)
  {
    generated, offsets := [], map[];
    var handlersSize := 8 * SignedByte(count);
    var k := 0;
    while k < |methods|
      invariant 0 <= k <= |methods| && ValidInfos(methods[..k])
      invariant generated == Generated(methods[..k])
      invariant offsets == OffsetMap(methods, count, k)
    {
      var info := methods[k];
      var offset := |generated| + handlersSize + 1;
      AppendInfoStep(methods, count, k);
      offsets := offsets[info.fullName := offset];
      generated := generated + HeaderBytes(info.header) + info.bytecodes;
      k := k + 1;
    }
    assert methods[..k] == methods;
  }

  /** `computeComponentSize`: the count byte, 8 bytes per handler entry, and the method infos. */
  function ComponentSize(handlers: seq<HandlerInfo>, generated: seq<int>): (r: int)
    ensures r >= 1
  {
    1 + 8 * |handlers| + |generated|
  }

  /**
   * The constructor of the method component: every class method's info (extending
   * the native list), the handler count, the method bytes and offsets, the handler
   * entries, and the size.
   */
  method Build(file: JcaFile, natives: seq<NativeMethod>) returns (r: Result<MethodComponent>, nativesAfter: seq<NativeMethod>)
    requires ValidMethods(ClassMethods(file.classes))
    ensures var ms := ClassMethods(file.classes);
            var generated := InfosBefore(ms, file.name, natives, |ms|);
            r.Ok? ==> && generated.Ok?
                      && nativesAfter == generated.value.1
                      && fresh(r.value)
                      && r.value.infos == generated.value.0
                      && r.value.handlerCount == ToByte(HandlerTotal(ms))
                      && r.value.generated == Generated(r.value.infos)
                      && r.value.methodsWithOffsets == OffsetMap(r.value.infos, r.value.handlerCount, |ms|)
                      && HandlersBefore(ms, r.value.infos, r.value.methodsWithOffsets, |ms|) == Ok(r.value.handlers)
                      && r.value.size == ComponentSize(r.value.handlers, r.value.generated)
    ensures var ms := ClassMethods(file.classes);
            var generated := InfosBefore(ms, file.name, natives, |ms|);
            r.Err? <==> (generated.Err? ||
                         HandlersBefore(ms, generated.value.0,
                                        OffsetMap(generated.value.0, ToByte(HandlerTotal(ms)), |ms|), |ms|).Err?)
  {
    var ms := ClassMethods(file.classes);
    var infos := GenerateMethods(ms, file.name, natives);
    if infos.Err? {
      return Err(infos.message), natives;
    }
    nativesAfter := infos.value.1;
    var total := CountHandlers(ms);
    var component := new MethodComponent(infos.value.0, ToByte(total));
    component.GenerateMethodBytecodes();
    var handlers := GenerateHandlers(ms, component.infos, component.methodsWithOffsets);
    if handlers.Err? {
      return Err(handlers.message), nativesAfter;
    }
    component.handlers := handlers.value;
    component.size := ComponentSize(component.handlers, component.generated);
    return Ok(component), nativesAfter;
  }
}
