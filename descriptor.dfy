/**
 * The descriptor component (section 6.13 of the Java Card 2.1 Virtual Machine
 * Specification): one descriptor per class and interface of the package, with its
 * field and method descriptors, followed by the type descriptor table. Type
 * descriptors are nibble strings packed two to a byte, stored once each and
 * referred to by their offset inside `type_descriptor_info`.
 */
module Descriptor {
  import opened Wrappers
  import opened Bytes
  import opened Jca
  import opened Table
  import MC = MethodComponent

  const ACC_PUBLIC := 0x01
  const ACC_PRIVATE := 0x02
  const ACC_PROTECTED := 0x04
  const ACC_STATIC := 0x08
  const ACC_FINAL := 0x10
  const ACC_INTERFACE := 0x40
  const ACC_METHOD_ABSTRACT := 0x40
  const ACC_METHOD_INIT := 0x80
  const ACC_CLASS_ABSTRACT := 0x80

  const TYPE_DESC_VOID := 0x1
  const TYPE_DESC_BOOLEAN := 0x2
  const TYPE_DESC_BYTE := 0x3
  const TYPE_DESC_SHORT := 0x4
  const TYPE_DESC_INT := 0x5
  const TYPE_DESC_REFERENCE := 0x6
  const TYPE_DESC_ARRAY := 0x8

  // ---------------------------------------------------------------- nibbles

  /** The nibble of a kind of type, without the array bit. */
  function KindNibble(k: Kind): (r: int)
    ensures 1 <= r <= 6
  {
    match k
    case VOID => TYPE_DESC_VOID
    case BOOLEAN => TYPE_DESC_BOOLEAN
    case BYTE => TYPE_DESC_BYTE
    case SHORT => TYPE_DESC_SHORT
    case INT => TYPE_DESC_INT
    case REFERENCE => TYPE_DESC_REFERENCE
  }

  /** The first nibble a type contributes to a signature: `void` never carries the array bit. */
  function TypeNibble(t: JType): (r: int)
    ensures 1 <= r < 16
    ensures r % 8 == KindNibble(t.kind)
    ensures r >= 8 <==> t.isArray && t.kind != VOID
  {
    if t.isArray && t.kind != VOID then KindNibble(t.kind) + TYPE_DESC_ARRAY else KindNibble(t.kind)
  }

  predicate IsNibbles(ns: seq<int>)
  {
    forall i :: 0 <= i < |ns| ==> 0 <= ns[i] < 16
  }

  /**
   * Nibbles packed two to a byte, high nibble first; an odd count leaves the low half
   * of the last byte 0. Each nibble is masked to its low 4 bits as it is packed.
   */
  function Pack(ns: seq<int>): (r: seq<int>)
    ensures |r| == (|ns| + 1) / 2 && AllBytes(r)
    decreases |ns|
  {
    if |ns| == 0 then []
    else if |ns| == 1 then [ns[0] % 16 * 16]
    else [ns[0] % 16 * 16 + ns[1] % 16] + Pack(ns[2..])
  }

  /** Nibble `i` of a packed byte string: the high half of byte `i / 2` for even `i`, else the low half. */
  function NibbleAt(bytes: seq<int>, i: int): int
    requires 0 <= i < 2 * |bytes|
  {
    if i % 2 == 0 then bytes[i / 2] / 16 else bytes[i / 2] % 16
  }

  /** The two halves of a byte made of two nibbles. */
  lemma ByteHalves(high: int, low: int)
    requires 0 <= high < 16 && 0 <= low < 16
    ensures (high * 16 + low) / 16 == high && (high * 16 + low) % 16 == low
  {
  }

  /** Past the first byte, nibble positions move down by two. */
  lemma NibbleAtShift(b: int, rest: seq<int>, i: int)
    requires 2 <= i < 2 * |rest| + 2
    ensures NibbleAt([b] + rest, i) == NibbleAt(rest, i - 2)
  {
    assert (i - 2) / 2 == i / 2 - 1 && (i - 2) % 2 == i % 2;
    assert ([b] + rest)[i / 2] == rest[i / 2 - 1];
  }

  /** Unpacking gives back every nibble. */
  lemma {:induction false} PackRoundTrip(ns: seq<int>, i: int)
    requires 0 <= i < |ns|
    ensures NibbleAt(Pack(ns), i) == ns[i] % 16
    decreases |ns|
  {
    var h := ns[0] % 16;
    if |ns| == 1 {
      ByteHalves(h, 0);
    } else {
      var l := ns[1] % 16;
      assert Pack(ns) == [h * 16 + l] + Pack(ns[2..]);
      if i >= 2 {
        PackRoundTrip(ns[2..], i - 2);
        NibbleAtShift(h * 16 + l, Pack(ns[2..]), i);
      } else {
        ByteHalves(h, l);
      }
    }
  }

  /** The padding nibble of an odd count is 0. */
  lemma {:induction false} PackPadding(ns: seq<int>)
    requires |ns| % 2 == 1
    ensures NibbleAt(Pack(ns), |ns|) == 0
    decreases |ns|
  {
    var h := ns[0] % 16;
    if |ns| == 1 {
      ByteHalves(h, 0);
    } else {
      var l := ns[1] % 16;
      assert Pack(ns) == [h * 16 + l] + Pack(ns[2..]);
      PackPadding(ns[2..]);
      NibbleAtShift(h * 16 + l, Pack(ns[2..]), |ns|);
    }
  }

  /** Two more nibbles after an even count add one byte. */
  lemma {:induction false} PackSnocPair(ns: seq<int>, x: int, y: int)
    requires |ns| % 2 == 0
    ensures Pack(ns + [x, y]) == Pack(ns) + [x % 16 * 16 + y % 16]
    decreases |ns|
  {
    if |ns| > 0 {
      assert (ns + [x, y])[2..] == ns[2..] + [x, y];
      PackSnocPair(ns[2..], x, y);
    }
  }

  /** One more nibble after an even count adds a byte whose low half is the padding. */
  lemma {:induction false} PackSnocOne(ns: seq<int>, x: int)
    requires |ns| % 2 == 0
    ensures Pack(ns + [x]) == Pack(ns) + [x % 16 * 16]
    decreases |ns|
  {
    if |ns| > 0 {
      assert (ns + [x])[2..] == ns[2..] + [x];
      PackSnocOne(ns[2..], x);
    }
  }

  /** The packing loop of `getMethodSignature`. */
  method PackNibbles(ns: seq<int>) returns (bytes: seq<int>)
    ensures bytes == Pack(ns)
  {
    bytes := [];
    var value := 0;
    var index := 0;
    while index < |ns|
      invariant 0 <= index <= |ns|
      invariant index % 2 == 0 ==> bytes == Pack(ns[..index])
      invariant index % 2 == 1 ==> bytes == Pack(ns[..index - 1]) && value == ns[index - 1] % 16 * 16
    {
      if index % 2 == 0 {
        value := ns[index] % 16 * 16;
      } else {
        PackSnocPair(ns[..index - 1], ns[index - 1], ns[index]);
        assert ns[..index + 1] == ns[..index - 1] + [ns[index - 1], ns[index]];
        value := value + ns[index] % 16;
        bytes := bytes + [value];
        value := 0;
      }
      index := index + 1;
    }
    if |ns| % 2 != 0 {
      PackSnocOne(ns[..|ns| - 1], ns[|ns| - 1]);
      assert ns[..|ns| - 1] + [ns[|ns| - 1]] == ns;
      bytes := bytes + [value];
    }
    assert ns[..|ns|] == ns;
  }

  // ---------------------------------------------------------------- type descriptors

  /** A type descriptor: its nibble count and its packed nibbles. */
  datatype TypeDescriptor = TypeDescriptor(nibbleCount: int, bytes: seq<int>)

  /** The four nibbles of two bytes, high nibble first. */
  function ClassNibbles(x: int, y: int): (r: seq<int>)
    ensures |r| == 4 && IsNibbles(r)
  {
    [x / 16 % 16, x % 16, y / 16 % 16, y % 16]
  }

  /** The four nibbles of an imported class: `package_token | 0x80`, then the class token. */
  function TokenNibbles(packageToken: int, classToken: int): (r: seq<int>)
    ensures |r| == 4 && IsNibbles(r)
  {
    ClassNibbles(ExternalPackage(packageToken), classToken)
  }

  /** The four nibbles of a 16-bit class offset of this package, high byte first. */
  function OffsetNibbles(offset: int): (r: seq<int>)
    ensures |r| == 4 && IsNibbles(r)
  {
    ClassNibbles(offset / 256 % 256, offset % 256)
  }

  /** The token nibbles of every descriptor naming the class, in order: each match adds four. */
  function MatchingNibbles(ds: seq<Descriptor>, name: Option<string>): (r: seq<int>)
    ensures |r| % 4 == 0 && IsNibbles(r)
    ensures r == [] <==> forall i :: 0 <= i < |ds| ==> Some(ds[i].className) != name
  {
    if ds == [] then []
    else
      var init, last := ds[..|ds| - 1], ds[|ds| - 1];
      var prev := MatchingNibbles(init, name);
      var more := if Some(last.className) == name then TokenNibbles(last.packageToken, last.classToken) else [];
      assert forall i :: 0 <= i < |init| ==> ds[i] == init[i];
      NibblesAppend(prev, more);
      prev + more
  }

  lemma NibblesAppend(a: seq<int>, b: seq<int>)
    requires IsNibbles(a) && IsNibbles(b)
    ensures IsNibbles(a + b)
  {
  }

  /**
   * The nibbles one parameter or return type adds to a signature. A reference is
   * followed by the tokens of its imported class, else by the tokens of every
   * descriptor naming it, else by the offset of the class of this package named by
   * the text after the last `/`; with no name at all that last step fails.
   */
  function TypeNibbles(objs: seq<Object>, t: JType, ds: seq<Descriptor>): (r: Result<seq<int>>)
    ensures r.Ok? ==> IsNibbles(r.value) && |r.value| >= 1 && r.value[0] == TypeNibble(t)
    ensures r.Ok? && t.kind != REFERENCE ==> |r.value| == 1
    ensures r.Ok? && t.kind == REFERENCE ==> |r.value| >= 5 && (|r.value| - 1) % 4 == 0
    ensures r.Ok? && t.kind == REFERENCE && t.ref.hasToken ==> |r.value| == 5
    ensures r.Err? <==> t.kind == REFERENCE && !t.ref.hasToken && t.ref.name.None? &&
                        forall i :: 0 <= i < |ds| ==> Some(ds[i].className) != t.ref.name
  {
    var nibble := TypeNibble(t);
    if t.kind != REFERENCE then Ok([nibble])
    else if t.ref.hasToken then Ok([nibble] + TokenNibbles(t.ref.packageToken, t.ref.classToken))
    else
      var matched := MatchingNibbles(ds, t.ref.name);
      if matched != [] then Ok([nibble] + matched)
      else if t.ref.name.None? then Err("NullPointerException")
      else Ok([nibble] + OffsetNibbles(OffsetOfName(objs, Some(AfterLastSlash(t.ref.name.value)))))
  }

  /** The nibbles of the first `n` types of a signature. */
  function SignatureNibbles(objs: seq<Object>, types: seq<JType>, ds: seq<Descriptor>, n: int): (r: Result<seq<int>>)
    requires 0 <= n <= |types|
    ensures r.Ok? ==> IsNibbles(r.value) && |r.value| >= n
  {
    if n == 0 then Ok([])
    else
      var init :- SignatureNibbles(objs, types, ds, n - 1);
      var more :- TypeNibbles(objs, types[n - 1], ds);
      Ok(init + more)
  }

  lemma {:induction false} SignatureNibblesErr(objs: seq<Object>, types: seq<JType>, ds: seq<Descriptor>, n: int, k: int)
    requires 0 <= n <= k <= |types| && SignatureNibbles(objs, types, ds, n).Err?
    ensures SignatureNibbles(objs, types, ds, k) == SignatureNibbles(objs, types, ds, n)
    decreases k - n
  {
    if n < k {
      SignatureNibblesErr(objs, types, ds, n, k - 1);
    }
  }

  /** `getMethodSignature` as a value: the parameters then the return type, packed. */
  function SignatureDescriptor(objs: seq<Object>, params: seq<JType>, ret: JType, ds: seq<Descriptor>)
    : (r: Result<TypeDescriptor>)
  {
    var types := params + [ret];
    var ns :- SignatureNibbles(objs, types, ds, |types|);
    Ok(TypeDescriptor(ToByte(|ns|), Pack(ns)))
  }

  /**
   * A signature descriptor holds one nibble per primitive or `void`, one byte per two
   * nibbles, the count in its first byte, and unpacks to the nibbles it was made of.
   */
  lemma SignatureDescriptorDecodes(objs: seq<Object>, params: seq<JType>, ret: JType, ds: seq<Descriptor>, i: int)
    requires SignatureDescriptor(objs, params, ret, ds).Ok?
    requires var types := params + [ret]; 0 <= i < |SignatureNibbles(objs, types, ds, |types|).value|
    ensures var types := params + [ret];
            var ns := SignatureNibbles(objs, types, ds, |types|).value;
            var d := SignatureDescriptor(objs, params, ret, ds).value;
            && d.nibbleCount == ToByte(|ns|) && |d.bytes| == (|ns| + 1) / 2
            && NibbleAt(d.bytes, i) == ns[i]
            && (|ns| % 2 == 1 ==> NibbleAt(d.bytes, |ns|) == 0)
  {
    var types := params + [ret];
    var ns := SignatureNibbles(objs, types, ds, |types|).value;
    PackRoundTrip(ns, i);
    if |ns| % 2 == 1 {
      PackPadding(ns);
    }
  }

  /**
   * `getMethodSignature`: collects the nibbles of each type, the reference tokens
   * from the descriptors or the class offsets, then packs them.
   */
  method GetMethodSignature(objs: seq<Object>, params: seq<JType>, ret: JType, ds: seq<Descriptor>)
    returns (r: Result<TypeDescriptor>)
    ensures r == SignatureDescriptor(objs, params, ret, ds)
  {
    var types := params + [ret];
    var nibbles: seq<int> := [];
    var k := 0;
    while k < |types|
      invariant 0 <= k <= |types|
      invariant SignatureNibbles(objs, types, ds, k) == Ok(nibbles)
    {
      var t := types[k];
      var more := TypeNibblesOf(objs, t, ds);
      if more.Err? {
        SignatureNibblesErr(objs, types, ds, k + 1, |types|);
        return Err(more.message);
      }
      nibbles := nibbles + more.value;
      k := k + 1;
    }
    var bytes := PackNibbles(nibbles);
    return Ok(TypeDescriptor(ToByte(|nibbles|), bytes));
  }

  /** The descriptor loop of `getMethodSignature`: the tokens of every descriptor naming the class. */
  method MatchingNibblesOf(ds: seq<Descriptor>, name: Option<string>) returns (nibbles: seq<int>, isFound: bool)
    ensures nibbles == MatchingNibbles(ds, name)
    ensures isFound <==> nibbles != []
  {
    nibbles, isFound := [], false;
    var k := 0;
    while k < |ds|
      invariant 0 <= k <= |ds|
      invariant nibbles == MatchingNibbles(ds[..k], name)
      invariant isFound <==> nibbles != []
    {
      assert ds[..k + 1][..k] == ds[..k];
      if Some(ds[k].className) == name {
        nibbles := nibbles + TokenNibbles(ds[k].packageToken, ds[k].classToken);
        isFound := true;
      }
      k := k + 1;
    }
    assert ds[..k] == ds;
  }

  /** The body of the type loop of `getMethodSignature`. */
  method TypeNibblesOf(objs: seq<Object>, t: JType, ds: seq<Descriptor>) returns (r: Result<seq<int>>)
    ensures r == TypeNibbles(objs, t, ds)
  {
    var nibble := TypeNibble(t);
    if t.kind != REFERENCE {
      return Ok([nibble]);
    }
    if t.ref.hasToken {
      return Ok([nibble] + TokenNibbles(t.ref.packageToken, t.ref.classToken));
    }
    var matched, isFound := MatchingNibblesOf(ds, t.ref.name);
    var nibbles := [nibble] + matched;
    if !isFound {
      if t.ref.name.None? {
        return Err("NullPointerException");
      }
      var offset := ClassOffset(objs, Some(AfterLastSlash(t.ref.name.value)));
      assert nibbles == [nibble];
      nibbles := nibbles + OffsetNibbles(offset);
      assert TypeNibbles(objs, t, ds) == Ok([nibble] + OffsetNibbles(offset));
    } else {
      assert TypeNibbles(objs, t, ds) == Ok([nibble] + matched);
    }
    return Ok(nibbles);
  }

  // ---------------------------------------------------------------- the type descriptor table

  /** A stored type descriptor and its offset inside `type_descriptor_info`. */
  datatype TypeEntry = TypeEntry(offset: int, desc: TypeDescriptor)

  /** The table in key order (the order the descriptors were stored in) and the next free offset. */
  datatype TypeTable = TypeTable(entries: seq<TypeEntry>, next: int)

  /** The bytes one stored descriptor takes: its nibble count and its packed nibbles. */
  function Span(d: TypeDescriptor): int
  {
    1 + |d.bytes|
  }

  /** The bytes taken by the first `n` stored descriptors. */
  function SpanBefore(es: seq<TypeEntry>, n: int): (r: int)
    requires 0 <= n <= |es|
    ensures r >= n
  {
    if n == 0 then 0 else SpanBefore(es, n - 1) + Span(es[n - 1].desc)
  }

  /** The descriptors are laid end to end from `start`, and `next` is the end of the last one. */
  predicate Laid(es: seq<TypeEntry>, start: int, next: int)
    decreases |es|
  {
    if es == [] then next == start
    else
      var last := es[|es| - 1];
      Laid(es[..|es| - 1], start, last.offset) && next == last.offset + Span(last.desc)
  }

  /** In a laid-out table the next free offset is `start` plus every stored descriptor's span. */
  lemma {:induction false} LaidNext(es: seq<TypeEntry>, start: int, next: int)
    requires Laid(es, start, next)
    ensures next == start + SpanBefore(es, |es|)
    decreases |es|
  {
    if es != [] {
      var init := es[..|es| - 1];
      LaidNext(init, start, es[|es| - 1].offset);
      SpanBeforePrefix(init, es, |init|);
    }
  }

  /** In a laid-out table each descriptor starts where the ones before it end. */
  lemma {:induction false} LaidAt(es: seq<TypeEntry>, start: int, next: int, i: int)
    requires Laid(es, start, next) && 0 <= i < |es|
    ensures es[i].offset == start + SpanBefore(es, i)
    decreases |es|
  {
    var init := es[..|es| - 1];
    SpanBeforePrefix(init, es, i);
    if i == |es| - 1 {
      LaidNext(init, start, es[i].offset);
    } else {
      LaidAt(init, start, es[|es| - 1].offset, i);
    }
  }

  /** No descriptor is stored twice. */
  predicate Distinct(es: seq<TypeEntry>)
  {
    forall i, j :: 0 <= i < j < |es| ==> es[i].desc != es[j].desc
  }

  /** A well-formed table starting at `start`. */
  predicate WellFormed(t: TypeTable, start: int)
  {
    Laid(t.entries, start, t.next) && Distinct(t.entries)
  }

  /** The offset of the first stored descriptor equal to `d`. */
  function FindType(es: seq<TypeEntry>, d: TypeDescriptor): (r: Option<int>)
    ensures r.None? <==> forall i :: 0 <= i < |es| ==> es[i].desc != d
    ensures r.Some? ==> exists i :: 0 <= i < |es| && es[i] == TypeEntry(r.value, d)
  {
    if es == [] then None
    else if es[0].desc == d then Some(es[0].offset)
    else
      var r := FindType(es[1..], d);
      assert forall i :: 1 <= i < |es| ==> es[i] == es[1..][i - 1];
      r
  }

  /** The descriptor stored at an offset, if any. */
  function Lookup(es: seq<TypeEntry>, offset: int): (r: Option<TypeDescriptor>)
  {
    if es == [] then None
    else if es[0].offset == offset then Some(es[0].desc)
    else Lookup(es[1..], offset)
  }

  /**
   * `addTypeDesc` as a value: the offset of an equal stored descriptor, or else `d`
   * stored at the next free offset, which moves past it. The old entries stay a prefix.
   */
  function AddType(t: TypeTable, d: TypeDescriptor): (r: (int, TypeTable))
    ensures |t.entries| <= |r.1.entries| && r.1.entries[..|t.entries|] == t.entries
    ensures TypeEntry(r.0, d) in r.1.entries
  {
    match FindType(t.entries, d)
    case Some(offset) => (offset, t)
    case None => (t.next, TypeTable(t.entries + [TypeEntry(t.next, d)], t.next + Span(d)))
  }

  /** Each stored descriptor takes at least one byte, so the spans strictly increase. */
  lemma {:induction false} SpanBeforeIncreasing(es: seq<TypeEntry>, i: int, j: int)
    requires 0 <= i < j <= |es|
    ensures SpanBefore(es, i) < SpanBefore(es, j)
    decreases j - i
  {
    if i + 1 < j {
      SpanBeforeIncreasing(es, i, j - 1);
    }
  }

  /** An offset no earlier entry has finds the entry stored there. */
  lemma {:induction false} LookupFirst(es: seq<TypeEntry>, i: int)
    requires 0 <= i < |es| && forall j :: 0 <= j < i ==> es[j].offset != es[i].offset
    ensures Lookup(es, es[i].offset) == Some(es[i].desc)
    decreases i
  {
    if i > 0 {
      assert es[0].offset != es[i].offset;
      LookupFirst(es[1..], i - 1);
    }
  }

  /** In a laid-out table an offset finds the one entry stored there. */
  lemma LookupLaid(es: seq<TypeEntry>, start: int, next: int, i: int)
    requires Laid(es, start, next) && 0 <= i < |es|
    ensures Lookup(es, es[i].offset) == Some(es[i].desc)
  {
    LaidAt(es, start, next, i);
    forall j | 0 <= j < i
      ensures es[j].offset != es[i].offset
    {
      LaidAt(es, start, next, j);
      SpanBeforeIncreasing(es, j, i);
    }
    LookupFirst(es, i);
  }

  /** Adding a descriptor keeps the table laid out and free of repeats, and never moves `next` back. */
  lemma AddTypeWellFormed(t: TypeTable, start: int, d: TypeDescriptor)
    requires WellFormed(t, start)
    ensures WellFormed(AddType(t, d).1, start)
    ensures AddType(t, d).1.next >= t.next
  {
    if FindType(t.entries, d).None? {
      LaidSnoc(t.entries, start, t.next, d);
      DistinctSnoc(t.entries, d);
      assert AddType(t, d).1 == TypeTable(t.entries + [TypeEntry(t.next, d)], t.next + Span(d));
    }
  }

  /** Storing one more descriptor at the next free offset keeps the layout. */
  lemma LaidSnoc(es: seq<TypeEntry>, start: int, next: int, d: TypeDescriptor)
    requires Laid(es, start, next)
    ensures Laid(es + [TypeEntry(next, d)], start, next + Span(d))
  {
    assert (es + [TypeEntry(next, d)])[..|es|] == es;
  }

  /** Storing a descriptor not yet stored keeps the descriptors distinct. */
  lemma DistinctSnoc(es: seq<TypeEntry>, d: TypeDescriptor)
    requires Distinct(es) && forall i :: 0 <= i < |es| ==> es[i].desc != d
    ensures forall next :: Distinct(es + [TypeEntry(next, d)])
  {
  }

  lemma {:induction false} SpanBeforePrefix(es: seq<TypeEntry>, longer: seq<TypeEntry>, n: int)
    requires 0 <= n <= |es| <= |longer| && longer[..|es|] == es
    ensures SpanBefore(longer, n) == SpanBefore(es, n)
    decreases n
  {
    if n > 0 {
      assert longer[n - 1] == es[n - 1];
      SpanBeforePrefix(es, longer, n - 1);
    }
  }

  /** The offset `addTypeDesc` returns holds the descriptor it was given. */
  lemma AddTypeFound(t: TypeTable, start: int, d: TypeDescriptor)
    requires WellFormed(t, start)
    ensures Lookup(AddType(t, d).1.entries, AddType(t, d).0) == Some(d)
  {
    AddTypeWellFormed(t, start, d);
    var r := AddType(t, d);
    var i :| 0 <= i < |r.1.entries| && r.1.entries[i] == TypeEntry(r.0, d);
    LookupLaid(r.1.entries, start, r.1.next, i);
  }

  /** Adding the same descriptor again returns the same offset and changes nothing. */
  lemma AddTypeIdempotent(t: TypeTable, start: int, d: TypeDescriptor)
    requires WellFormed(t, start)
    ensures AddType(AddType(t, d).1, d) == AddType(t, d)
  {
    AddTypeWellFormed(t, start, d);
    var r := AddType(t, d);
    var i :| 0 <= i < |r.1.entries| && r.1.entries[i] == TypeEntry(r.0, d);
    var f := FindType(r.1.entries, d);
    var j :| 0 <= j < |r.1.entries| && r.1.entries[j] == TypeEntry(f.value, d);
    assert !(i < j) && !(j < i);
  }

  /** The bytes of the stored descriptors, each its nibble count then its packed nibbles. */
  function DescBytes(es: seq<TypeEntry>): (r: seq<int>)
    ensures |r| == SpanBefore(es, |es|)
  {
    if es == [] then []
    else
      var d := es[|es| - 1].desc;
      var init := es[..|es| - 1];
      SpanBeforePrefix(init, es, |init|);
      DescBytes(init) + [d.nibbleCount] + d.bytes
  }

  /** The constant pool types, two bytes each. */
  function ShortsBytes(vs: seq<int>): (r: seq<int>)
    ensures |r| == 2 * |vs|
  {
    if vs == [] then [] else ShortsBytes(vs[..|vs| - 1]) + BigEndian16(vs[|vs| - 1])
  }

  /** `type_descriptor_info`: the constant pool count, the constant pool types, the stored descriptors. */
  function TypeInfoBytes(cpTypes: seq<int>, es: seq<TypeEntry>): (r: seq<int>)
    ensures |r| == 2 + 2 * |cpTypes| + SpanBefore(es, |es|)
  {
    BigEndian16(|cpTypes|) + ShortsBytes(cpTypes) + DescBytes(es)
  }

  lemma {:induction false} DescBytesAt(es: seq<TypeEntry>, i: int)
    requires 0 <= i < |es|
    ensures SpanBefore(es, i) + Span(es[i].desc) <= |DescBytes(es)|
    ensures DescBytes(es)[SpanBefore(es, i)] == es[i].desc.nibbleCount
    ensures DescBytes(es)[SpanBefore(es, i) + 1..SpanBefore(es, i) + Span(es[i].desc)] == es[i].desc.bytes
    decreases |es|
  {
    var init := es[..|es| - 1];
    var d := es[|es| - 1].desc;
    SpanBeforePrefix(init, es, |init|);
    SpanBeforePrefix(init, es, i);
    var a := DescBytes(init);
    assert DescBytes(es) == a + ([d.nibbleCount] + d.bytes);
    if i < |es| - 1 {
      DescBytesAt(init, i);
      SpanBeforePrefix(init, es, i + 1);
      if i + 1 < |init| {
        SpanBeforeIncreasing(init, i + 1, |init|);
      }
    }
  }

  /**
   * With the descriptors laid out from just past the constant pool types, each
   * offset points inside `type_descriptor_info` at that descriptor's nibble count,
   * followed by its bytes, and the next free offset is the length of the whole.
   */
  lemma TypeDescriptorLocated(cpTypes: seq<int>, es: seq<TypeEntry>, next: int, i: int)
    requires Laid(es, 2 + 2 * |cpTypes|, next) && 0 <= i < |es|
    ensures |TypeInfoBytes(cpTypes, es)| == next
    ensures 2 + 2 * |cpTypes| <= es[i].offset && es[i].offset + Span(es[i].desc) <= next
    ensures TypeInfoBytes(cpTypes, es)[es[i].offset] == es[i].desc.nibbleCount
    ensures TypeInfoBytes(cpTypes, es)[es[i].offset + 1..es[i].offset + Span(es[i].desc)] == es[i].desc.bytes
  {
    var head := BigEndian16(|cpTypes|) + ShortsBytes(cpTypes);
    var body := DescBytes(es);
    DescBytesAt(es, i);
    LaidAt(es, 2 + 2 * |cpTypes|, next, i);
    LaidNext(es, 2 + 2 * |cpTypes|, next);
    var o, n := SpanBefore(es, i), Span(es[i].desc);
    assert es[i].offset == |head| + o;
    assert TypeInfoBytes(cpTypes, es) == head + body;
    SliceAfter(head, body, o + 1, o + n);
  }

  /** A slice of the second part of a concatenation. */
  lemma SliceAfter(a: seq<int>, b: seq<int>, x: int, y: int)
    requires 0 <= x <= y <= |b|
    ensures (a + b)[|a| + x..|a| + y] == b[x..y]
  {
  }

  /** The first free offset as the constructor sets it: 2 with no constant pool, else twice the entry count. */
  function InitialOffsetAsWritten(cp: Option<seq<CPEntry>>): int
  {
    if cp.None? then 2 else 2 * |cp.value|
  }

  /** The first free offset: just past `constant_pool_count` and `constant_pool_types`. */
  function InitialOffset(cp: Option<seq<CPEntry>>): (r: int)
    ensures r >= 2
  {
    2 + 2 * (if cp.None? then 0 else |cp.value|)
  }

  /**
   * With one class reference in the constant pool, the first descriptor is stored at
   * offset 2 as written, where `type_descriptor_info` holds the high byte of that
   * entry's type 0xFFFF rather than the descriptor's nibble count.
   */
  lemma FirstDescriptorMisplacedAsWritten()
    ensures var cp := Some([CPClass(ClassRef(None, false, 0, 0))]);
            var d := TypeDescriptor(1, [0x20]);
            var es := [TypeEntry(InitialOffsetAsWritten(cp), d)];
            && Laid(es, InitialOffsetAsWritten(cp), 4)
            && TypeInfoBytes([0xFFFF], es)[es[0].offset] == 0xFF != d.nibbleCount
  {
    var es := [TypeEntry(2, TypeDescriptor(1, [0x20]))];
    assert TypeInfoBytes([0xFFFF], es) == [0, 1] + [0xFF, 0xFF] + [1, 0x20];
  }

  // ---------------------------------------------------------------- field and constant pool types

  /** `addArrayOfPrimitive2TypeDesc`: one nibble, the array type, padded. */
  function ArrayDescriptor(arrayType: int): TypeDescriptor
  {
    TypeDescriptor(1, [ToByte(arrayType * 16)])
  }

  /** `addPrimitive2TypeDesc`'s descriptor: one nibble, the array bit added for an array; a reference is refused. */
  function PrimitiveDescriptor(t: JType): (r: Result<TypeDescriptor>)
    ensures r.Err? <==> t.kind == REFERENCE
  {
    if t.kind == REFERENCE then Err("Incorrect type")
    else Ok(TypeDescriptor(1, [ToByte(PrimitiveNibble(t) * 16)]))
  }

  /** The nibble of a primitive or `void` type (0 for `void`), with the array bit for an array. */
  function PrimitiveNibble(t: JType): int
  {
    (if t.kind == VOID then 0 else KindNibble(t.kind)) + (if t.isArray then TYPE_DESC_ARRAY else 0)
  }

  /** The byte `(v << 4) | x` with `x` a nibble: the low nibble of `v` on top. */
  lemma ShiftNibble(v: int, x: int)
    requires 0 <= x < 16
    ensures ToByte(v * 16 + x) == v % 16 * 16 + x
  {
    assert v * 16 == 256 * (v / 16) + v % 16 * 16;
  }

  /**
   * `addReference2TypeDesc`'s descriptor: five nibbles, the reference nibble then the
   * class, by its tokens or by the offset of the object with the type's full name.
   */
  function ReferenceDescriptor(objs: seq<Object>, t: JType): TypeDescriptor
  {
    ReferenceTo(t, if t.ref.hasToken then 0 else OffsetOfName(objs, t.ref.name))
  }

  /** The reference descriptor of `t` for an internal class at offset `v` (ignored for an imported class). */
  function ReferenceTo(t: JType, v: int): TypeDescriptor
  {
    var nibble := if t.isArray then TYPE_DESC_REFERENCE + TYPE_DESC_ARRAY else TYPE_DESC_REFERENCE;
    if t.ref.hasToken then TypeDescriptor(5, ClassBytes(nibble, ExternalPackage(t.ref.packageToken), t.ref.classToken))
    else TypeDescriptor(5, ClassBytes(nibble, v / 256 % 256, v % 256))
  }

  /** `(nibble << 4) | (x >> 4) & 0x0F`, `(x << 4) | (y >> 4) & 0x0F`, `y << 4`, each cast to a byte. */
  function ClassBytes(nibble: int, x: int, y: int): seq<int>
  {
    [ToByte(nibble * 16 + x / 16 % 16), ToByte(x * 16 + y / 16 % 16), ToByte(y * 16)]
  }

  /** The three bytes are the packing of the nibble and the four nibbles of the two bytes. */
  lemma ClassBytesPacked(nibble: int, x: int, y: int)
    requires 0 <= nibble < 16
    ensures ClassBytes(nibble, x, y) == Pack([nibble] + ClassNibbles(x, y))
  {
    var ns := ClassNibbles(x, y);
    PackFive(nibble, ns[0], ns[1], ns[2], ns[3]);
    assert [nibble] + ns == [nibble, ns[0], ns[1], ns[2], ns[3]];
    ShiftNibble(nibble, ns[0]);
    ShiftNibble(x, ns[2]);
    ShiftNibble(y, 0);
  }

  /** A reference descriptor is the packing of the reference nibble and the four nibbles of its class. */
  lemma ReferenceDescriptorPacked(objs: seq<Object>, t: JType)
    requires t.kind == REFERENCE
    ensures ReferenceDescriptor(objs, t) ==
            TypeDescriptor(5, Pack([TypeNibble(t)] +
              if t.ref.hasToken then TokenNibbles(t.ref.packageToken, t.ref.classToken)
              else OffsetNibbles(OffsetOfName(objs, t.ref.name))))
  {
    var nibble := TypeNibble(t);
    if t.ref.hasToken {
      ClassBytesPacked(nibble, ExternalPackage(t.ref.packageToken), t.ref.classToken);
    } else {
      var v := OffsetOfName(objs, t.ref.name);
      ClassBytesPacked(nibble, v / 256 % 256, v % 256);
    }
  }

  /** Five nibbles pack into three bytes, the last with a 0 low half. */
  lemma PackFive(a: int, b: int, c: int, d: int, e: int)
    requires 0 <= a < 16 && 0 <= b < 16 && 0 <= c < 16 && 0 <= d < 16 && 0 <= e < 16
    ensures Pack([a, b, c, d, e]) == [a * 16 + b, c * 16 + d, e * 16]
  {
    assert a % 16 == a && b % 16 == b && c % 16 == c && d % 16 == d && e % 16 == e;
    assert [a, b, c, d, e][2..] == [c, d, e];
    assert [c, d, e][2..] == [e];
    assert Pack([e]) == [e * 16];
    assert Pack([c, d, e]) == [c * 16 + d, e * 16];
  }

  /**
   * The field-type descriptor of a reference and the signature nibbles of the same
   * reference agree, where both name the class the same way (by tokens, or by a name
   * without a package path and no descriptor naming it).
   */
  lemma ReferenceAgreesWithSignature(objs: seq<Object>, t: JType)
    requires t.kind == REFERENCE
    requires t.ref.hasToken || (t.ref.name.Some? && '/' !in t.ref.name.value)
    ensures TypeNibbles(objs, t, []).Ok?
    ensures ReferenceDescriptor(objs, t) == TypeDescriptor(5, Pack(TypeNibbles(objs, t, []).value))
  {
    ReferenceDescriptorPacked(objs, t);
    var ns := if t.ref.hasToken then TokenNibbles(t.ref.packageToken, t.ref.classToken)
              else OffsetNibbles(OffsetOfName(objs, t.ref.name));
    if !t.ref.hasToken {
      var name := t.ref.name.value;
      assert LastSlash(name) == -1;
      assert AfterLastSlash(name) == name;
      assert MatchingNibbles([], t.ref.name) == [];
    }
    assert TypeNibbles(objs, t, []) == Ok([TypeNibble(t)] + ns);
  }

  /** A primitive array's field type and a constant pool field of the same type share one descriptor. */
  lemma ArrayAgreesWithPrimitive(t: JType)
    requires t.kind in {BOOLEAN, BYTE, SHORT, INT} && t.isArray
    ensures PrimitiveDescriptor(t) == Ok(ArrayDescriptor(TypeNibble(t)))
    ensures ArrayDescriptor(TypeNibble(t)) == TypeDescriptor(1, Pack([TypeNibble(t)]))
  {
  }

  // ---------------------------------------------------------------- descriptor records

  /** A class reference: an offset into the class component, or the tokens of an imported class. */
  datatype ClassRefInfo = InternalRef(offset: int) | ExternalRef(packageToken: int, classToken: int)

  /** A field reference: a static field's padding and image offset, or an instance field's class and token. */
  datatype FieldRefInfo = StaticRef(padding: int, offset: int) | InstanceRef(classRef: int, token: int)

  datatype FieldDescriptorInfo = FieldDescriptorInfo(token: int, flags: int, ref: FieldRefInfo, ftype: int)

  datatype MethodDescriptorInfo = MethodDescriptorInfo(token: int, flags: int, methodOffset: int, typeOffset: int,
                                                       bytecodeCount: int, handlerCount: int, handlerIndex: int)

  datatype ClassDescriptorInfo = ClassDescriptorInfo(token: int, flags: int, thisClassRef: int,
                                                     interfaceCount: int, interfaces: seq<ClassRefInfo>,
                                                     fieldCount: int, fields: seq<FieldDescriptorInfo>,
                                                     methodCount: int, methods: seq<MethodDescriptorInfo>)

  /** Bit `bit` (a power of two below 256) is set in `flags`. */
  predicate HasFlag(flags: int, bit: int)
    requires bit > 0
  {
    flags / bit % 2 == 1
  }

  /** The access bit of an accessor; package visibility has none. */
  function AccessorFlag(a: Accessor): int
  {
    match a
    case PUBLIC => ACC_PUBLIC
    case PRIVATE => ACC_PRIVATE
    case PROTECTED => ACC_PROTECTED
    case PACKAGE => 0
  }

  /** The `access_flags` of a class or interface descriptor. */
  function ClassFlags(o: Object): (r: int)
    ensures IsByte(r)
    ensures HasFlag(r, ACC_PUBLIC) <==> o.accessor == PUBLIC
    ensures HasFlag(r, ACC_FINAL) <==> o.Class? && o.isFinal
    ensures HasFlag(r, ACC_INTERFACE) <==> o.Interface?
    ensures HasFlag(r, ACC_CLASS_ABSTRACT) <==> o.isAbstract
    ensures !HasFlag(r, 0x02) && !HasFlag(r, 0x04) && !HasFlag(r, 0x08) && !HasFlag(r, 0x20)
  {
    (if o.accessor == PUBLIC then ACC_PUBLIC else 0) + (if o.Class? && o.isFinal then ACC_FINAL else 0) +
    (if o.Interface? then ACC_INTERFACE else 0) + (if o.isAbstract then ACC_CLASS_ABSTRACT else 0)
  }

  /** The `access_flags` of a field descriptor. */
  function FieldFlags(f: Field): (r: int)
    ensures IsByte(r)
    ensures HasFlag(r, ACC_PUBLIC) <==> f.accessor == PUBLIC
    ensures HasFlag(r, ACC_PRIVATE) <==> f.accessor == PRIVATE
    ensures HasFlag(r, ACC_PROTECTED) <==> f.accessor == PROTECTED
    ensures HasFlag(r, ACC_STATIC) <==> f.isStatic
    ensures HasFlag(r, ACC_FINAL) <==> f.isFinal
    ensures r < 0x20
  {
    AccessorFlag(f.accessor) + (if f.isStatic then ACC_STATIC else 0) + (if f.isFinal then ACC_FINAL else 0)
  }

  /** `s.contains(sub)`. */
  predicate Contains(s: string, sub: string)
    decreases |s|
  {
    if |s| < |sub| then false
    else if s[..|sub|] == sub then true
    else Contains(s[1..], sub)
  }

  /** A constructor, by the `<init>` in its name. */
  predicate IsInit(m: Method)
  {
    Contains(m.signature.name, "<init>")
  }

  /** The `access_flags` of a method descriptor. */
  function MethodFlags(m: Method): (r: int)
    ensures IsByte(r)
    ensures HasFlag(r, ACC_PUBLIC) <==> m.accessor == PUBLIC
    ensures HasFlag(r, ACC_PRIVATE) <==> m.accessor == PRIVATE
    ensures HasFlag(r, ACC_PROTECTED) <==> m.accessor == PROTECTED
    ensures HasFlag(r, ACC_STATIC) <==> m.isStatic
    ensures HasFlag(r, ACC_FINAL) <==> m.signature.isFinal
    ensures HasFlag(r, ACC_METHOD_ABSTRACT) <==> m.signature.isAbstract
    ensures HasFlag(r, ACC_METHOD_INIT) <==> IsInit(m)
  {
    AccessorFlag(m.accessor) + (if m.isStatic then ACC_STATIC else 0) +
    (if m.signature.isFinal then ACC_FINAL else 0) + (if m.signature.isAbstract then ACC_METHOD_ABSTRACT else 0) +
    (if IsInit(m) then ACC_METHOD_INIT else 0)
  }

  // ---------------------------------------------------------------- tokens

  /** The number of objects among the first `n` that are not package-visible. */
  function PublicBefore(objs: seq<Object>, n: int): (r: int)
    requires 0 <= n <= |objs|
    ensures 0 <= r <= n
  {
    if n == 0 then 0 else PublicBefore(objs, n - 1) + (if objs[n - 1].accessor == PACKAGE then 0 else 1)
  }

  /** The first object that is not package-visible and has the name, or the object count. */
  function FirstPublicNamed(objs: seq<Object>, name: string): (r: int)
    ensures 0 <= r <= |objs|
    ensures forall i :: 0 <= i < r ==> objs[i].accessor == PACKAGE || objs[i].name != name
    ensures r < |objs| ==> objs[r].accessor != PACKAGE && objs[r].name == name
  {
    if objs == [] then 0
    else if objs[0].accessor != PACKAGE && objs[0].name == name then 0
    else
      var r := 1 + FirstPublicNamed(objs[1..], name);
      assert forall i :: 1 <= i < |objs| ==> objs[i] == objs[1..][i - 1];
      r
  }

  /** The token of a class or interface: 0xFF when package-visible, else its rank among the others. */
  function ClassTokenOf(objs: seq<Object>, i: int): int
    requires 0 <= i < |objs|
  {
    if objs[i].accessor == PACKAGE then 0xFF
    else ToByte(PublicBefore(objs, FirstPublicNamed(objs, objs[i].name)))
  }

  /** With distinct names, the classes that get a token are numbered 0, 1, 2, ... in order. */
  lemma ClassTokensNumbered(objs: seq<Object>, i: int)
    requires 0 <= i < |objs| && objs[i].accessor != PACKAGE
    requires forall j, k :: 0 <= j < k < |objs| ==> objs[j].name != objs[k].name
    requires |objs| <= 256
    ensures ClassTokenOf(objs, i) == PublicBefore(objs, i)
    ensures forall j :: 0 <= j < i && objs[j].accessor != PACKAGE ==> ClassTokenOf(objs, j) < ClassTokenOf(objs, i)
  {
    assert FirstPublicNamed(objs, objs[i].name) == i;
    forall j | 0 <= j < i && objs[j].accessor != PACKAGE
      ensures ClassTokenOf(objs, j) < ClassTokenOf(objs, i)
    {
      assert FirstPublicNamed(objs, objs[j].name) == j;
      PublicBeforeIncreasing(objs, j, i);
    }
  }

  lemma {:induction false} PublicBeforeIncreasing(objs: seq<Object>, j: int, i: int)
    requires 0 <= j < i <= |objs| && objs[j].accessor != PACKAGE
    ensures PublicBefore(objs, j) < PublicBefore(objs, i)
    decreases i - j
  {
    if j + 1 < i {
      PublicBeforeIncreasing(objs, j, i - 1);
    }
  }

  /** The token loop of `addClassDescriptor`: skip package-visible objects, count the others until the name. */
  method ComputeClassToken(objs: seq<Object>, i: int) returns (token: int)
    requires 0 <= i < |objs|
    ensures token == ClassTokenOf(objs, i)
  {
    if objs[i].accessor == PACKAGE {
      return 0xFF;
    }
    var name := objs[i].name;
    var count := 0;
    var k := 0;
    while k < |objs| && !(objs[k].accessor != PACKAGE && objs[k].name == name)
      invariant 0 <= k <= |objs| && count == PublicBefore(objs, k)
      invariant forall j :: 0 <= j < k ==> objs[j].accessor == PACKAGE || objs[j].name != name
    {
      if objs[k].accessor != PACKAGE {
        count := count + 1;
      }
      k := k + 1;
    }
    assert k == FirstPublicNamed(objs, name);
    token := ToByte(count);
  }

  /**
   * A token the converter searches for by position with a Java `byte` counter: past
   * position 127 the counter wraps to -128 and the lookup at -128 throws.
   */
  predicate FieldTokenWraps(f: Field, index: int)
  {
    !((f.accessor == PRIVATE || f.accessor == PACKAGE) && f.isStatic) && !f.hasToken && index >= 128
  }

  predicate MethodTokenWraps(m: Method, index: int)
  {
    && m.accessor != PRIVATE
    && !(m.isStatic && m.accessor == PACKAGE)
    && !(IsInit(m) && m.accessor == PACKAGE)
    && !m.hasToken && index >= 128
  }

  /**
   * The token of a field descriptor: none (0xFF) for a private or package static field,
   * else its declared token, else its position, which fails past 127.
   */
  function FieldTokenOf(f: Field, index: int): (r: Result<int>)
    requires 0 <= index
    ensures r.Err? <==> FieldTokenWraps(f, index)
    ensures r.Ok? ==> IsByte(r.value)
    ensures r.Ok? && (f.accessor == PRIVATE || f.accessor == PACKAGE) && f.isStatic ==> r.value == 0xFF
    ensures r.Ok? && !((f.accessor == PRIVATE || f.accessor == PACKAGE) && f.isStatic) && !f.hasToken ==>
              r.value == index
  {
    if (f.accessor == PRIVATE || f.accessor == PACKAGE) && f.isStatic then Ok(0xFF)
    else if f.hasToken then Ok(ToByte(f.fieldToken))
    else if index < 128 then Ok(index)
    else Err("IndexOutOfBoundsException")
  }

  /**
   * The token of a method descriptor: none (0xFF) for a private method, a package static
   * method or a package constructor, else its declared token, else its position, which
   * fails past 127.
   */
  function MethodTokenOf(m: Method, index: int): (r: Result<int>)
    requires 0 <= index
    ensures r.Err? <==> MethodTokenWraps(m, index)
    ensures r.Ok? ==> IsByte(r.value)
    ensures r.Ok? && (m.accessor == PRIVATE || (m.accessor == PACKAGE && (m.isStatic || IsInit(m)))) ==>
              r.value == 0xFF
    ensures r.Ok? && !(m.accessor == PRIVATE || (m.accessor == PACKAGE && (m.isStatic || IsInit(m)))) && !m.hasToken ==>
              r.value == index
  {
    if m.accessor == PRIVATE then Ok(0xFF)
    else if m.isStatic && m.accessor == PACKAGE then Ok(0xFF)
    else if IsInit(m) && m.accessor == PACKAGE then Ok(0xFF)
    else if m.hasToken then Ok(ToByte(m.token))
    else if index < 128 then Ok(index)
    else Err("IndexOutOfBoundsException")
  }

  // ---------------------------------------------------------------- field descriptors

  /** A static final field of a primitive, non-array type gets no descriptor. */
  predicate Undescribed(f: Field)
  {
    f.isStatic && f.isFinal && !f.ftype.isArray && f.ftype.kind != REFERENCE
  }

  /** `JCAClassField.equals`: every attribute alike, the types compared by `JCAType.equals`. */
  predicate FieldEquals(a: Field, b: Field)
  {
    && a.accessor == b.accessor && a.isFinal == b.isFinal && SameType(a.ftype, b.ftype) && a.name == b.name
    && a.initValues == b.initValues && a.fieldToken == b.fieldToken && a.hasToken == b.hasToken
    && a.isStatic == b.isStatic
  }

  /** `fields.indexOf(f)`: the first field equal to `f`, or -1. */
  function IndexOfField(fs: seq<Field>, f: Field): (r: int)
    ensures -1 <= r < |fs|
    ensures r >= 0 ==> FieldEquals(fs[r], f)
    ensures forall j :: 0 <= j < |fs| && (r == -1 || j < r) ==> !FieldEquals(fs[j], f)
  {
    if fs == [] then -1
    else if FieldEquals(fs[0], f) then 0
    else
      var r := IndexOfField(fs[1..], f);
      assert forall j :: 1 <= j < |fs| ==> fs[j] == fs[1..][j - 1];
      if r == -1 then -1 else r + 1
  }

  /**
   * The type of a field descriptor: `0x8000 | nibble` for a primitive, else the offset
   * of the array or reference descriptor, added to the table; 0 for `void`.
   */
  function FieldType(objs: seq<Object>, ft: JType, t: TypeTable): (r: (int, TypeTable))
  {
    match ft.kind
    case VOID => (0, t)
    case REFERENCE => AddType(t, ReferenceDescriptor(objs, ft))
    case _ => if ft.isArray then AddType(t, ArrayDescriptor(TypeNibble(ft))) else (0x8000 + TypeNibble(ft), t)
  }

  /**
   * A primitive field's type has the top bit set and its nibble in the low bits, and
   * leaves the table alone; an array or reference field's type is the offset at which
   * the table now holds its descriptor.
   */
  lemma FieldTypeMeaning(objs: seq<Object>, ft: JType, t: TypeTable, start: int)
    requires WellFormed(t, start)
    ensures var r := FieldType(objs, ft, t);
            && WellFormed(r.1, start)
            && (ft.kind in {BOOLEAN, BYTE, SHORT, INT} && !ft.isArray ==>
                  r.1 == t && r.0 / 0x8000 == 1 && r.0 % 0x8000 == TypeNibble(ft))
            && (ft.kind in {BOOLEAN, BYTE, SHORT, INT} && ft.isArray ==>
                  Lookup(r.1.entries, r.0) == Some(ArrayDescriptor(TypeNibble(ft))))
            && (ft.kind == REFERENCE ==> Lookup(r.1.entries, r.0) == Some(ReferenceDescriptor(objs, ft)))
  {
    if ft.kind == REFERENCE {
      AddTypeWellFormed(t, start, ReferenceDescriptor(objs, ft));
      AddTypeFound(t, start, ReferenceDescriptor(objs, ft));
    } else if ft.kind != VOID && ft.isArray {
      AddTypeWellFormed(t, start, ArrayDescriptor(TypeNibble(ft)));
      AddTypeFound(t, start, ArrayDescriptor(TypeNibble(ft)));
    }
  }

  /** The field reference of a described field: its image offset if static, else its class offset and index. */
  function FieldRefOf(objs: seq<Object>, oi: int, f: Field, image: seq<Cell<Field>>): (r: Result<FieldRefInfo>)
    requires 0 <= oi < |objs|
    ensures r.Err? <==> f.isStatic && FirstInRow(image, f.name).None?
  {
    if f.isStatic then
      match FirstInRow(image, f.name)
      case None => Err("NoSuchElementException")
      case Some(column) => Ok(StaticRef(0, column))
    else
      Ok(InstanceRef(OffsetOfName(objs, Some(objs[oi].name)), ToByte(IndexOfField(objs[oi].fields, f))))
  }

  /** `computeField` as a value: no descriptor for an undescribed field, else its descriptor and the new table. */
  function FieldDescriptorOf(objs: seq<Object>, oi: int, fi: int, image: seq<Cell<Field>>, t: TypeTable)
    : (r: Result<(Option<FieldDescriptorInfo>, TypeTable)>)
    requires 0 <= oi < |objs| && 0 <= fi < |objs[oi].fields|
    ensures r.Ok? ==> (r.value.0.None? <==> Undescribed(objs[oi].fields[fi]))
    ensures r.Err? <==> FieldRefused(objs[oi].fields[fi], fi, image)
  {
    var f := objs[oi].fields[fi];
    if Undescribed(f) then Ok((None, t))
    else
      var token :- FieldTokenOf(f, fi);
      var ref :- FieldRefOf(objs, oi, f, image);
      var ty := FieldType(objs, f.ftype, t);
      Ok((Some(FieldDescriptorInfo(token, FieldFlags(f), ref, ty.0)), ty.1))
  }

  /** No element or one. */
  function AsList<T>(o: Option<T>): (r: seq<T>)
    ensures |r| == (if o.Some? then 1 else 0) && (o.Some? ==> r[0] == o.value)
  {
    if o.Some? then [o.value] else []
  }

  /** The number of described fields among the first `n`. */
  function DescribedCount(fs: seq<Field>, n: int): (r: int)
    requires 0 <= n <= |fs|
    ensures 0 <= r <= n
  {
    if n == 0 then 0 else DescribedCount(fs, n - 1) + (if Undescribed(fs[n - 1]) then 0 else 1)
  }

  /** A described field at position `i` whose token search wraps, or a static one that needs an image offset and has none. */
  predicate FieldRefused(f: Field, i: int, image: seq<Cell<Field>>)
  {
    !Undescribed(f) && (FieldTokenWraps(f, i) || (f.isStatic && FirstInRow(image, f.name).None?))
  }

  /** The descriptors of the first `n` fields of object `oi`, in declaration order, and the table after them. */
  function FieldsBefore(objs: seq<Object>, oi: int, image: seq<Cell<Field>>, t: TypeTable, n: int)
    : (r: Result<(seq<FieldDescriptorInfo>, TypeTable)>)
    requires 0 <= oi < |objs| && 0 <= n <= |objs[oi].fields|
    ensures r.Ok? ==> |r.value.0| == DescribedCount(objs[oi].fields, n)
  {
    if n == 0 then Ok(([], t))
    else
      var prev :- FieldsBefore(objs, oi, image, t, n - 1);
      var step :- FieldDescriptorOf(objs, oi, n - 1, image, prev.1);
      Ok((prev.0 + AsList(step.0), step.1))
  }

  /** The first `n` fields fail exactly when one of them is refused. */
  lemma {:induction false} FieldsBeforeRefused(objs: seq<Object>, oi: int, image: seq<Cell<Field>>, t: TypeTable, n: int)
    requires 0 <= oi < |objs| && 0 <= n <= |objs[oi].fields|
    ensures FieldsBefore(objs, oi, image, t, n).Err? <==> exists i :: 0 <= i < n && FieldRefused(objs[oi].fields[i], i, image)
    decreases n
  {
    if n > 0 {
      FieldsBeforeRefused(objs, oi, image, t, n - 1);
      FieldsBeforeStepErr(objs, oi, image, t, n);
      var f := objs[oi].fields;
      if !FieldRefused(f[n - 1], n - 1, image) {
        if exists i :: 0 <= i < n && FieldRefused(f[i], i, image) {
          var i :| 0 <= i < n && FieldRefused(f[i], i, image);
          assert i < n - 1;
        }
      }
    }
  }

  /** One more field fails exactly when the fields before it failed or it is refused. */
  lemma {:induction false} FieldsBeforeStepErr(objs: seq<Object>, oi: int, image: seq<Cell<Field>>, t: TypeTable, n: int)
    requires 0 <= oi < |objs| && 0 < n <= |objs[oi].fields|
    ensures FieldsBefore(objs, oi, image, t, n).Err?
        <==> FieldsBefore(objs, oi, image, t, n - 1).Err? || FieldRefused(objs[oi].fields[n - 1], n - 1, image)
  {
  }

  lemma {:induction false} FieldsBeforeErr(objs: seq<Object>, oi: int, image: seq<Cell<Field>>, t: TypeTable,
                                           n: int, k: int)
    requires 0 <= oi < |objs| && 0 <= n <= k <= |objs[oi].fields| && FieldsBefore(objs, oi, image, t, n).Err?
    ensures FieldsBefore(objs, oi, image, t, k) == FieldsBefore(objs, oi, image, t, n)
    decreases k - n
  {
    if n < k {
      FieldsBeforeErr(objs, oi, image, t, n, k - 1);
      var prev := FieldsBefore(objs, oi, image, t, k - 1);
      assert prev.Err?;
      assert FieldsBefore(objs, oi, image, t, k) == Err(prev.message);
    }
  }

  /** Describing the fields keeps the type table well formed. */
  /** One step of FieldsBeforeWellFormed: the table stays well formed and keeps its entries. */
  lemma {:induction false} FieldsBeforeStep(objs: seq<Object>, oi: int, image: seq<Cell<Field>>, t: TypeTable, n: int, start: int)
    requires 0 <= oi < |objs| && 0 < n <= |objs[oi].fields| && FieldsBefore(objs, oi, image, t, n).Ok?
    ensures FieldsBefore(objs, oi, image, t, n - 1).Ok?
    ensures var t1 := FieldsBefore(objs, oi, image, t, n - 1).value.1;
            var t2 := FieldsBefore(objs, oi, image, t, n).value.1;
            WellFormed(t1, start) && t.entries <= t1.entries ==> WellFormed(t2, start) && t.entries <= t2.entries
  {
    var t1, t2 := FieldsBeforeTables(objs, oi, image, t, n, start);
    if WellFormed(t1, start) && t.entries <= t1.entries {
      EntriesGrow(t.entries, t1.entries, t2.entries);
    }
  }

  lemma {:induction false} FieldsBeforeWellFormed(objs: seq<Object>, oi: int, image: seq<Cell<Field>>, t: TypeTable,
                                                  n: int, start: int)
    requires 0 <= oi < |objs| && 0 <= n <= |objs[oi].fields| && WellFormed(t, start)
    requires FieldsBefore(objs, oi, image, t, n).Ok?
    ensures WellFormed(FieldsBefore(objs, oi, image, t, n).value.1, start)
    ensures t.entries <= FieldsBefore(objs, oi, image, t, n).value.1.entries
    decreases n
  {
    if n > 0 {
      FieldsBeforeStep(objs, oi, image, t, n, start);
      FieldsBeforeWellFormed(objs, oi, image, t, n - 1, start);
    }
  }

  /** The tables before and after the `n`-th field: the step keeps a well-formed table well formed and only appends. */
  lemma {:induction false} FieldsBeforeTables(objs: seq<Object>, oi: int, image: seq<Cell<Field>>, t: TypeTable, n: int, start: int)
    returns (t1: TypeTable, t2: TypeTable)
    requires 0 <= oi < |objs| && 0 < n <= |objs[oi].fields| && FieldsBefore(objs, oi, image, t, n).Ok?
    ensures FieldsBefore(objs, oi, image, t, n - 1).Ok? && FieldsBefore(objs, oi, image, t, n - 1).value.1 == t1
    ensures FieldsBefore(objs, oi, image, t, n).value.1 == t2
    ensures WellFormed(t1, start) ==> WellFormed(t2, start) && t1.entries <= t2.entries
  {
    t1 := FieldsBefore(objs, oi, image, t, n - 1).value.1;
    var step := FieldDescriptorOf(objs, oi, n - 1, image, t1);
    assert step.Ok? && FieldsBefore(objs, oi, image, t, n).value.1 == step.value.1;
    t2 := step.value.1;
    if WellFormed(t1, start) {
      FieldDescriptorKeepsTable(objs, oi, n - 1, image, t1, start);
    }
  }

  /** A field descriptor keeps the type table well formed and only appends to it. */
  lemma FieldDescriptorKeepsTable(objs: seq<Object>, oi: int, fi: int, image: seq<Cell<Field>>, t: TypeTable,
                                  start: int)
    requires 0 <= oi < |objs| && 0 <= fi < |objs[oi].fields| && WellFormed(t, start)
    requires FieldDescriptorOf(objs, oi, fi, image, t).Ok?
    ensures WellFormed(FieldDescriptorOf(objs, oi, fi, image, t).value.1, start)
    ensures t.entries <= FieldDescriptorOf(objs, oi, fi, image, t).value.1.entries
  {
    var f := objs[oi].fields[fi];
    if !Undescribed(f) {
      FieldTypeKeepsTable(objs, f.ftype, t, start);
    }
  }

  lemma FieldTypeKeepsTable(objs: seq<Object>, ft: JType, t: TypeTable, start: int)
    requires WellFormed(t, start)
    ensures WellFormed(FieldType(objs, ft, t).1, start)
    ensures t.entries <= FieldType(objs, ft, t).1.entries
  {
    if ft.kind == REFERENCE {
      AddTypeWellFormed(t, start, ReferenceDescriptor(objs, ft));
    } else if ft.kind != VOID && ft.isArray {
      AddTypeWellFormed(t, start, ArrayDescriptor(TypeNibble(ft)));
    }
  }

  // ---------------------------------------------------------------- field order

  /** The value the fields are ordered by: `class_ref << 8 | token` for an instance field, the offset for a static one. */
  function SortKey(f: FieldDescriptorInfo): int
  {
    match f.ref
    case InstanceRef(classRef, token) => classRef * 256 + token
    case StaticRef(padding, offset) => padding * 0x1_0000 + offset
  }

  /** The key the comparator computes for its first argument: the instance key cast to a 16-bit `short`. */
  function FirstKeyAsWritten(f: FieldDescriptorInfo): int
  {
    match f.ref
    case InstanceRef(classRef, token) => SignedShort(ToShort(classRef * 256 + token))
    case StaticRef(padding, offset) => padding * 0x1_0000 + offset
  }

  /** The comparator as written: the first key cast, the second not. */
  function CompareAsWritten(a: FieldDescriptorInfo, b: FieldDescriptorInfo): int
  {
    FirstKeyAsWritten(a) - SortKey(b)
  }

  /**
   * For an instance field of a class at offset 128 or more the comparator says the
   * field is smaller than itself, which breaks the contract `List.sort` relies on.
   */
  lemma ComparatorNotReflexiveAsWritten()
    ensures var f := FieldDescriptorInfo(0, 0, InstanceRef(128, 0), 0x8002);
            CompareAsWritten(f, f) == -0x1_0000
  {
  }

  predicate SortedByKey(fs: seq<FieldDescriptorInfo>)
  {
    forall i, j :: 0 <= i < j < |fs| ==> SortKey(fs[i]) <= SortKey(fs[j])
  }

  /** Insert after every element whose key is not larger, keeping equal keys in arrival order. */
  function Insert(s: seq<FieldDescriptorInfo>, f: FieldDescriptorInfo): (r: seq<FieldDescriptorInfo>)
    requires SortedByKey(s)
    ensures SortedByKey(r)
    ensures multiset(r) == multiset(s) + multiset{f}
    ensures |r| == |s| + 1 && (r[0] == f || (s != [] && r[0] == s[0]))
  {
    if s == [] then [f]
    else if SortKey(f) < SortKey(s[0]) then SortedCons(f, s); [f] + s
    else
      var rest := Insert(s[1..], f);
      assert s == [s[0]] + s[1..];
      SortedCons(s[0], rest);
      [s[0]] + rest
  }

  /** An element no larger than the head of a sorted sequence can go in front of it. */
  lemma SortedCons(x: FieldDescriptorInfo, s: seq<FieldDescriptorInfo>)
    requires SortedByKey(s) && (s != [] ==> SortKey(x) <= SortKey(s[0]))
    ensures SortedByKey([x] + s)
  {
    var r := [x] + s;
    forall i, j | 0 <= i < j < |r|
      ensures SortKey(r[i]) <= SortKey(r[j])
    {
      if i == 0 {
        assert r[j] == s[j - 1];
        assert SortKey(s[0]) <= SortKey(s[j - 1]);
      } else {
        assert r[i] == s[i - 1] && r[j] == s[j - 1];
      }
    }
  }

  /** The fields ordered by key (a stable sort, as `List.sort` is). */
  function SortFields(fs: seq<FieldDescriptorInfo>): (r: seq<FieldDescriptorInfo>)
    ensures SortedByKey(r)
    ensures multiset(r) == multiset(fs) && |r| == |fs|
  {
    if fs == [] then []
    else
      var init := fs[..|fs| - 1];
      assert fs == init + [fs[|fs| - 1]];
      Insert(SortFields(init), fs[|fs| - 1])
  }

  // ---------------------------------------------------------------- method descriptors

  /** What the method component contributes: method offsets by full name, the method infos, the handlers. */
  datatype MethodData = MethodData(offsets: map<string, int>, infos: seq<MC.MethodInfo>, handlers: seq<MC.HandlerInfo>)

  /** The bytecode count of the first method info named `name`, or 0 when there is none. */
  function BytecodeCount(infos: seq<MC.MethodInfo>, name: string): (r: int)
    ensures 0 <= r < 0x1_0000
    ensures (forall i :: 0 <= i < |infos| ==> infos[i].fullName != name) ==> r == 0
    ensures forall i :: (0 <= i < |infos| && infos[i].fullName == name &&
                         forall j :: 0 <= j < i ==> infos[j].fullName != name) ==> r == ToShort(|infos[i].bytecodes|)
  {
    if infos == [] then 0
    else if infos[0].fullName == name then ToShort(|infos[0].bytecodes|)
    else
      assert forall i :: 1 <= i < |infos| ==> infos[i] == infos[1..][i - 1];
      BytecodeCount(infos[1..], name)
  }

  /** The index of the first handler of method `name`, or 0 when it has none. */
  function FirstHandlerOf(hs: seq<MC.HandlerInfo>, name: string): (r: int)
    ensures 0 <= r && (r == 0 || r < |hs|)
    ensures (exists i :: 0 <= i < |hs| && hs[i].fullMethodName == name) ==>
              r < |hs| && hs[r].fullMethodName == name && forall j :: 0 <= j < r ==> hs[j].fullMethodName != name
    ensures (forall i :: 0 <= i < |hs| ==> hs[i].fullMethodName != name) ==> r == 0
  {
    if hs == [] then 0
    else if hs[0].fullMethodName == name then 0
    else
      var r := FirstHandlerOf(hs[1..], name);
      assert forall i :: 1 <= i < |hs| ==> hs[i] == hs[1..][i - 1];
      if exists i :: 0 <= i < |hs[1..]| && hs[1..][i].fullMethodName == name then r + 1 else 0
  }

  /** `computeMethod` as a value: the descriptor of method `mi` of object `oi` and the new type table. */
  function MethodDescriptorOf(objs: seq<Object>, oi: int, mi: int, md: MethodData, t: TypeTable)
    : (r: Result<(MethodDescriptorInfo, TypeTable)>)
    requires 0 <= oi < |objs| && 0 <= mi < |objs[oi].methods|
    ensures var m := objs[oi].methods[mi];
            r.Err? <==> || MethodTokenWraps(m, mi)
                        || (objs[oi].Class? && FullName(m.signature) !in md.offsets)
                        || SignatureDescriptor(objs, m.signature.parameters, m.signature.returnType,
                                               m.signature.descriptors).Err?
  {
    var o := objs[oi];
    var m := o.methods[mi];
    var sig := m.signature;
    var name := FullName(sig);
    var token :- MethodTokenOf(m, mi);
    var offset :- if o.Interface? then Ok(0)
                  else if name in md.offsets then Ok(md.offsets[name])
                  else Err("Method " + name + " had been not found");
    var desc :- SignatureDescriptor(objs, sig.parameters, sig.returnType, sig.descriptors);
    var added := AddType(t, desc);
    var count := if o.Interface? then 0 else BytecodeCount(md.infos, name);
    var handlerCount := if sig.isNative || sig.isAbstract then 0 else ToShort(|m.code.handlers|);
    var handlerIndex := if handlerCount == 0 then 0 else FirstHandlerOf(md.handlers, name);
    Ok((MethodDescriptorInfo(token, MethodFlags(m), offset, added.0, count, handlerCount, handlerIndex),
        added.1))
  }

  /**
   * A method descriptor fails exactly when a class method has no offset in the method
   * component or its signature cannot be described; otherwise its type offset names its
   * signature in the new table, its method offset is the one the method component
   * recorded, and its handler index points at the method's first handler.
   */
  lemma MethodDescriptorMeaning(objs: seq<Object>, oi: int, mi: int, md: MethodData, t: TypeTable, start: int)
    requires 0 <= oi < |objs| && 0 <= mi < |objs[oi].methods| && WellFormed(t, start)
    ensures var m := objs[oi].methods[mi];
            var sig := m.signature;
            var desc := SignatureDescriptor(objs, sig.parameters, sig.returnType, sig.descriptors);
            var r := MethodDescriptorOf(objs, oi, mi, md, t);
            && (r.Err? <==> MethodTokenWraps(m, mi) || (objs[oi].Class? && FullName(sig) !in md.offsets) || desc.Err?)
            && (r.Ok? ==>
                  && WellFormed(r.value.1, start)
                  && Lookup(r.value.1.entries, r.value.0.typeOffset) == Some(desc.value)
                  && (objs[oi].Class? ==> r.value.0.methodOffset == md.offsets[FullName(sig)])
                  && (objs[oi].Interface? ==> r.value.0.methodOffset == 0 && r.value.0.bytecodeCount == 0)
                  && ((r.value.0.handlerCount != 0 &&
                       exists i :: 0 <= i < |md.handlers| && md.handlers[i].fullMethodName == FullName(sig)) ==>
                        md.handlers[r.value.0.handlerIndex].fullMethodName == FullName(sig)))
  {
    var m := objs[oi].methods[mi];
    var sig := m.signature;
    var desc := SignatureDescriptor(objs, sig.parameters, sig.returnType, sig.descriptors);
    if desc.Ok? {
      AddTypeWellFormed(t, start, desc.value);
      AddTypeFound(t, start, desc.value);
    }
  }

  /** A method descriptor keeps the type table well formed and only appends to it. */
  lemma MethodDescriptorKeepsTable(objs: seq<Object>, oi: int, mi: int, md: MethodData, t: TypeTable, start: int)
    requires 0 <= oi < |objs| && 0 <= mi < |objs[oi].methods| && WellFormed(t, start)
    requires MethodDescriptorOf(objs, oi, mi, md, t).Ok?
    ensures WellFormed(MethodDescriptorOf(objs, oi, mi, md, t).value.1, start)
    ensures t.entries <= MethodDescriptorOf(objs, oi, mi, md, t).value.1.entries
  {
    var sig := objs[oi].methods[mi].signature;
    var desc := SignatureDescriptor(objs, sig.parameters, sig.returnType, sig.descriptors);
    AddTypeWellFormed(t, start, desc.value);
  }

  /** The descriptors of the first `n` methods of object `oi`, in declaration order, and the table after them. */
  function MethodsBefore(objs: seq<Object>, oi: int, md: MethodData, t: TypeTable, n: int)
    : (r: Result<(seq<MethodDescriptorInfo>, TypeTable)>)
    requires 0 <= oi < |objs| && 0 <= n <= |objs[oi].methods|
    ensures r.Ok? ==> |r.value.0| == n
  {
    if n == 0 then Ok(([], t))
    else
      var prev :- MethodsBefore(objs, oi, md, t, n - 1);
      var step :- MethodDescriptorOf(objs, oi, n - 1, md, prev.1);
      Ok((prev.0 + [step.0], step.1))
  }

  /** The table after `n` methods is the one the `n`-th method's descriptor leaves. */
  lemma {:induction false} MethodsBeforeLast(objs: seq<Object>, oi: int, md: MethodData, t: TypeTable, n: int)
    requires 0 <= oi < |objs| && 0 < n <= |objs[oi].methods| && MethodsBefore(objs, oi, md, t, n).Ok?
    ensures MethodsBefore(objs, oi, md, t, n - 1).Ok?
    ensures var prev := MethodsBefore(objs, oi, md, t, n - 1).value;
            var step := MethodDescriptorOf(objs, oi, n - 1, md, prev.1);
            step.Ok? && MethodsBefore(objs, oi, md, t, n).value.1 == step.value.1
  {
  }

  /** The tables before and after the `n`-th method: the step keeps a well-formed table well formed and only appends. */
  lemma {:induction false} MethodsBeforeTables(objs: seq<Object>, oi: int, md: MethodData, t: TypeTable, n: int, start: int)
    returns (t1: TypeTable, t2: TypeTable)
    requires 0 <= oi < |objs| && 0 < n <= |objs[oi].methods| && MethodsBefore(objs, oi, md, t, n).Ok?
    ensures MethodsBefore(objs, oi, md, t, n - 1).Ok? && MethodsBefore(objs, oi, md, t, n - 1).value.1 == t1
    ensures MethodsBefore(objs, oi, md, t, n).value.1 == t2
    ensures WellFormed(t1, start) ==> WellFormed(t2, start) && t1.entries <= t2.entries
  {
    MethodsBeforeLast(objs, oi, md, t, n);
    t1 := MethodsBefore(objs, oi, md, t, n - 1).value.1;
    t2 := MethodsBefore(objs, oi, md, t, n).value.1;
    if WellFormed(t1, start) {
      MethodDescriptorKeepsTable(objs, oi, n - 1, md, t1, start);
    }
  }

  /** A table that grows twice has grown. */
  lemma EntriesGrow(a: seq<TypeEntry>, b: seq<TypeEntry>, c: seq<TypeEntry>)
    requires a <= b && b <= c
    ensures a <= c
  {
    assert c[..|b|][..|a|] == c[..|a|];
  }

  /** Describing the methods keeps the type table well formed and never shrinks it. */
  lemma {:induction false} MethodsBeforeWellFormed(objs: seq<Object>, oi: int, md: MethodData, t: TypeTable,
                                                   n: int, start: int)
    requires 0 <= oi < |objs| && 0 <= n <= |objs[oi].methods| && WellFormed(t, start)
    requires MethodsBefore(objs, oi, md, t, n).Ok?
    ensures WellFormed(MethodsBefore(objs, oi, md, t, n).value.1, start)
    ensures t.entries <= MethodsBefore(objs, oi, md, t, n).value.1.entries
    decreases n
  {
    if n > 0 {
      var t1, t2 := MethodsBeforeTables(objs, oi, md, t, n, start);
      MethodsBeforeWellFormed(objs, oi, md, t, n - 1, start);
      EntriesGrow(t.entries, t1.entries, t2.entries);
    }
  }

  // ---------------------------------------------------------------- interfaces

  /** The interfaces an object names: an interface's superinterfaces, a class's implemented interfaces. */
  function InterfaceNames(o: Object): (r: seq<ClassRef>)
    ensures o.Interface? ==> r == o.superInterfaces
    ensures o.Class? ==> |r| == |o.interfaces| && forall k :: 0 <= k < |r| ==> r[k] == o.interfaces[k].iface
  {
    match o
    case Interface(_, _, _, _, _, _, _, _, _, superInterfaces) => superInterfaces
    case Class(_, _, _, _, _, _, _, _, _, _, _, _, _, _, _, interfaces) =>
      seq(|interfaces|, k requires 0 <= k < |interfaces| => interfaces[k].iface)
  }

  /** An interface reference: the tokens of an imported interface, else the class-component offset of the named one. */
  function InterfaceRef(objs: seq<Object>, r: ClassRef): ClassRefInfo
  {
    if r.hasToken then ExternalRef(ExternalPackage(r.packageToken), ToByte(r.classToken))
    else InternalRef(OffsetOfName(objs, r.name))
  }

  /** As written, an internal interface reference is the offset of the object being described. */
  function InterfaceRefAsWritten(objs: seq<Object>, self: string, r: ClassRef): ClassRefInfo
  {
    if r.hasToken then ExternalRef(ExternalPackage(r.packageToken), ToByte(r.classToken))
    else InternalRef(OffsetOfName(objs, Some(self)))
  }

  /** The interface references of object `oi`, one per named interface, in order. */
  function InterfaceRefs(objs: seq<Object>, oi: int): (r: seq<ClassRefInfo>)
    requires 0 <= oi < |objs|
    ensures |r| == |InterfaceNames(objs[oi])|
    ensures forall k :: 0 <= k < |r| ==> r[k] == InterfaceRef(objs, InterfaceNames(objs[oi])[k])
  {
    var names := InterfaceNames(objs[oi]);
    seq(|names|, k requires 0 <= k < |names| => InterfaceRef(objs, names[k]))
  }

  /** With distinct names, an internal interface reference points at the start of the interface it names. */
  lemma InterfaceRefLocated(objs: seq<Object>, r: ClassRef, j: int)
    requires 0 <= j < |objs| && !r.hasToken && r.name == Some(objs[j].name)
    requires forall i, k :: 0 <= i < k < |objs| ==> objs[i].name != objs[k].name
    ensures InterfaceRef(objs, r) == InternalRef(OffsetBefore(objs, j))
  {
    OwnNameFound(objs, j);
  }

  /**
   * A class `C` that implements the interface `I` of its own package, `I` laid out first:
   * as written the reference points at `C` itself rather than at `I`.
   */
  lemma InterfaceRefSelfAsWritten()
    ensures var i := Interface(true, false, false, "I", false, 0, PUBLIC, [], [], []);
            var iref := ClassRef(Some("I"), false, 0, 0);
            var c := Class(false, false, false, "C", false, 0, PUBLIC, [], [], false, 0, [], 0, [], None,
                           [ImplementedInterface(iref, [])]);
            var objs := [i, c];
            && InterfaceRefAsWritten(objs, "C", iref) == InternalRef(ClassSize(i))
            && InterfaceRef(objs, iref) == InternalRef(0)
            && ClassSize(i) != 0
  {
    var i := Interface(true, false, false, "I", false, 0, PUBLIC, [], [], []);
    var iref := ClassRef(Some("I"), false, 0, 0);
    var c := Class(false, false, false, "C", false, 0, PUBLIC, [], [], false, 0, [], 0, [], None,
                   [ImplementedInterface(iref, [])]);
    var objs := [i, c];
    OwnNameFound(objs, 0);
    OwnNameFound(objs, 1);
    assert IndexOfName(objs, Some("C")) == 1;
  }

  /**
   * An interface `J` that extends the interface `I` of its own package, `I` laid out
   * first: as written the superinterface reference points at `J` itself rather than at `I`.
   */
  lemma SuperInterfaceRefSelfAsWritten()
    ensures var iref := ClassRef(Some("I"), false, 0, 0);
            var i := Interface(true, false, false, "I", false, 0, PUBLIC, [], [], []);
            var j := Interface(true, false, false, "J", false, 0, PUBLIC, [], [], [iref]);
            var objs := [i, j];
            && InterfaceNames(j) == [iref]
            && InterfaceRefAsWritten(objs, "J", iref) == InternalRef(ClassSize(i))
            && InterfaceRef(objs, iref) == InternalRef(0)
            && ClassSize(i) != 0
  {
    var iref := ClassRef(Some("I"), false, 0, 0);
    var i := Interface(true, false, false, "I", false, 0, PUBLIC, [], [], []);
    var j := Interface(true, false, false, "J", false, 0, PUBLIC, [], [], [iref]);
    var objs := [i, j];
    OwnNameFound(objs, 0);
    OwnNameFound(objs, 1);
    assert IndexOfName(objs, Some("J")) == 1;
  }

  // ---------------------------------------------------------------- class descriptors

  /**
   * `addClassDescriptor` as a value: the descriptor of object `oi` (its fields sorted by
   * reference) and the type table after its fields' and methods' types.
   */
  function ClassDescriptorOf(objs: seq<Object>, oi: int, image: seq<Cell<Field>>, md: MethodData, t: TypeTable)
    : (r: Result<(ClassDescriptorInfo, TypeTable)>)
    requires 0 <= oi < |objs|
  {
    var o := objs[oi];
    var ifs := InterfaceRefs(objs, oi);
    var fs :- FieldsBefore(objs, oi, image, t, |o.fields|);
    var ms :- MethodsBefore(objs, oi, md, fs.1, |o.methods|);
    var sorted := SortFields(fs.0);
    Ok((ClassDescriptorInfo(ClassTokenOf(objs, oi), ClassFlags(o), OffsetOfName(objs, Some(o.name)),
                            ToByte(|ifs|), ifs, ToShort(|sorted|), sorted, ToShort(|ms.0|), ms.0),
        ms.1))
  }

  /**
   * A class descriptor lists every interface the object names, its described fields
   * ordered by reference, and one method descriptor per method; it fails whenever a
   * field's token search wraps or a static field has no image offset.
   */
  lemma ClassDescriptorMeaning(objs: seq<Object>, oi: int, image: seq<Cell<Field>>, md: MethodData, t: TypeTable,
                               start: int)
    requires 0 <= oi < |objs| && WellFormed(t, start)
    ensures var r := ClassDescriptorOf(objs, oi, image, md, t);
            var o := objs[oi];
            && ((exists i :: 0 <= i < |o.fields| && FieldRefused(o.fields[i], i, image)) ==> r.Err?)
            && (r.Ok? ==>
                  && WellFormed(r.value.1, start)
                  && t.entries <= r.value.1.entries
                  && |r.value.0.interfaces| == |InterfaceNames(o)|
                  && |r.value.0.fields| == DescribedCount(o.fields, |o.fields|)
                  && SortedByKey(r.value.0.fields)
                  && multiset(r.value.0.fields) == multiset(FieldsBefore(objs, oi, image, t, |o.fields|).value.0)
                  && |r.value.0.methods| == |o.methods|
                  && r.value.0.thisClassRef == OffsetOfName(objs, Some(o.name)))
  {
    var o := objs[oi];
    var fs := FieldsBefore(objs, oi, image, t, |o.fields|);
    FieldsBeforeRefused(objs, oi, image, t, |o.fields|);
    if fs.Ok? {
      FieldsBeforeWellFormed(objs, oi, image, t, |o.fields|, start);
      var ms := MethodsBefore(objs, oi, md, fs.value.1, |o.methods|);
      if ms.Ok? {
        MethodsBeforeWellFormed(objs, oi, md, fs.value.1, |o.methods|, start);
      }
    }
  }

  // ---------------------------------------------------------------- component size

  /** The bytes of one class descriptor: 9 fixed, then 2 per interface, 7 per field and 12 per method. */
  function ClassRecordSize(c: ClassDescriptorInfo): int
  {
    9 + 2 * |c.interfaces| + 7 * |c.fields| + 12 * |c.methods|
  }

  function ClassesSize(cs: seq<ClassDescriptorInfo>): (r: int)
    ensures r >= 9 * |cs|
  {
    if cs == [] then 0 else ClassesSize(cs[..|cs| - 1]) + ClassRecordSize(cs[|cs| - 1])
  }

  /** `computeComponentSize`, before the 16-bit cast: `class_count`, the classes, then `type_descriptor_info`. */
  function ComponentSize(classes: seq<ClassDescriptorInfo>, cpCount: int, es: seq<TypeEntry>): int
  {
    1 + ClassesSize(classes) + 2 + 2 * cpCount + SpanBefore(es, |es|)
  }

  /**
   * With the descriptors laid out from just past the constant pool types, the size
   * counts exactly the serialized `type_descriptor_info`, whose length is the next
   * free offset.
   */
  lemma ComponentSizeCoversTable(classes: seq<ClassDescriptorInfo>, cpTypes: seq<int>, t: TypeTable)
    requires WellFormed(t, 2 + 2 * |cpTypes|)
    ensures ComponentSize(classes, |cpTypes|, t.entries) == 1 + ClassesSize(classes) + t.next
    ensures ComponentSize(classes, |cpTypes|, t.entries) == 1 + ClassesSize(classes) + |TypeInfoBytes(cpTypes, t.entries)|
  {
    LaidNext(t.entries, 2 + 2 * |cpTypes|, t.next);
  }

  /** The first stored descriptor equal to `d` is the one `FindType` finds. */
  lemma {:induction false} FindTypeFirst(es: seq<TypeEntry>, d: TypeDescriptor, k: int)
    requires 0 <= k < |es| && es[k].desc == d && forall j :: 0 <= j < k ==> es[j].desc != d
    ensures FindType(es, d) == Some(es[k].offset)
    decreases k
  {
    if k > 0 {
      assert es[0].desc != d;
      FindTypeFirst(es[1..], d, k - 1);
    }
  }

  /** What `addTypeDesc` does in each case, and that the table stays well formed. */
  lemma AddTypeStep(t: TypeTable, start: int, d: TypeDescriptor)
    requires WellFormed(t, start)
    ensures FindType(t.entries, d).None? ==>
              WellFormed(TypeTable(t.entries + [TypeEntry(t.next, d)], t.next + Span(d)), start)
    ensures FindType(t.entries, d).Some? ==> AddType(t, d) == (FindType(t.entries, d).value, t)
    ensures FindType(t.entries, d).None? ==>
              AddType(t, d) == (t.next, TypeTable(t.entries + [TypeEntry(t.next, d)], t.next + Span(d)))
  {
    if FindType(t.entries, d).None? {
      LaidSnoc(t.entries, start, t.next, d);
      DistinctSnoc(t.entries, d);
    }
  }

  /** The search loop of `addTypeDesc`: the offset of the first stored descriptor equal to `d`. */
  method FindOffset(es: seq<TypeEntry>, d: TypeDescriptor) returns (r: Option<int>)
    ensures r == FindType(es, d)
  {
    var k := 0;
    while k < |es|
      invariant 0 <= k <= |es|
      invariant forall j :: 0 <= j < k ==> es[j].desc != d
    {
      if es[k].desc == d {
        FindTypeFirst(es, d, k);
        return Some(es[k].offset);
      }
      k := k + 1;
    }
    return None;
  }

  /** A failing method descriptor ends the list: every longer prefix fails the same way. */
  lemma {:induction false} MethodsBeforeErr(objs: seq<Object>, oi: int, md: MethodData, t: TypeTable, n: int, k: int)
    requires 0 <= oi < |objs| && 0 <= n <= k <= |objs[oi].methods| && MethodsBefore(objs, oi, md, t, n).Err?
    ensures MethodsBefore(objs, oi, md, t, k) == MethodsBefore(objs, oi, md, t, n)
    decreases k
  {
    if k > n {
      MethodsBeforeErr(objs, oi, md, t, n, k - 1);
      var prev := MethodsBefore(objs, oi, md, t, k - 1);
      assert prev.Err?;
      assert MethodsBefore(objs, oi, md, t, k) == Err(prev.message);
    }
  }

  /** One more field: the list grows by the field's descriptor, if any, or the whole list fails. */
  lemma {:induction false} FieldsBeforeNext(objs: seq<Object>, oi: int, image: seq<Cell<Field>>, t: TypeTable, k: int,
                         infos: seq<FieldDescriptorInfo>, t1: TypeTable)
    requires 0 <= oi < |objs| && 0 <= k < |objs[oi].fields| && FieldsBefore(objs, oi, image, t, k) == Ok((infos, t1))
    ensures var step := FieldDescriptorOf(objs, oi, k, image, t1);
            && (step.Err? ==> FieldsBefore(objs, oi, image, t, k + 1).Err?)
            && (step.Ok? ==> FieldsBefore(objs, oi, image, t, k + 1) ==
                               Ok((infos + AsList(step.value.0), step.value.1)))
  {
  }

  /** One more method: the list grows by the method's descriptor, or the whole list fails. */
  lemma {:induction false} MethodsBeforeNext(objs: seq<Object>, oi: int, md: MethodData, t: TypeTable, k: int,
                          infos: seq<MethodDescriptorInfo>, t1: TypeTable)
    requires 0 <= oi < |objs| && 0 <= k < |objs[oi].methods| && MethodsBefore(objs, oi, md, t, k) == Ok((infos, t1))
    ensures var step := MethodDescriptorOf(objs, oi, k, md, t1);
            && (step.Err? ==> MethodsBefore(objs, oi, md, t, k + 1).Err?)
            && (step.Ok? ==> MethodsBefore(objs, oi, md, t, k + 1) == Ok((infos + [step.value.0], step.value.1)))
  {
  }

  /** The bytecode-count loop of `computeMethod`: the first method info with the name gives the count. */
  method FindBytecodeCount(infos: seq<MC.MethodInfo>, name: string) returns (count: int)
    ensures count == BytecodeCount(infos, name)
  {
    count := 0;
    var k := 0;
    while k < |infos|
      invariant 0 <= k <= |infos|
      invariant forall j :: 0 <= j < k ==> infos[j].fullName != name
    {
      if infos[k].fullName == name {
        return ToShort(|infos[k].bytecodes|);
      }
      k := k + 1;
    }
  }

  /** The handler-index loop of `computeMethod`: the position of the method's first handler, 0 without one. */
  method FindFirstHandler(hs: seq<MC.HandlerInfo>, name: string) returns (index: int)
    ensures index == FirstHandlerOf(hs, name)
  {
    index := 0;
    var k := 0;
    while k < |hs|
      invariant 0 <= k <= |hs|
      invariant forall j :: 0 <= j < k ==> hs[j].fullMethodName != name
    {
      if hs[k].fullMethodName == name {
        return k;
      }
      k := k + 1;
    }
  }

  /** The interface loop of `addClassDescriptor`, with each internal interface located by its own name. */
  method InterfaceRefsOf(objs: seq<Object>, oi: int) returns (refs: seq<ClassRefInfo>)
    requires 0 <= oi < |objs|
    ensures refs == InterfaceRefs(objs, oi)
  {
    var names := InterfaceNames(objs[oi]);
    refs := [];
    var k := 0;
    while k < |names|
      invariant 0 <= k <= |names| && |refs| == k
      invariant forall j :: 0 <= j < k ==> refs[j] == InterfaceRef(objs, names[j])
    {
      var r := names[k];
      if r.hasToken {
        refs := refs + [ExternalRef(ExternalPackage(r.packageToken), ToByte(r.classToken))];
      } else {
        var offset := ClassOffset(objs, r.name);
        refs := refs + [InternalRef(offset)];
      }
      k := k + 1;
    }
  }

  /** The per-class part of `computeComponentSize`: the fixed items, then each interface, field and method. */
  method RecordSize(c: ClassDescriptorInfo) returns (size: int)
    ensures size == ClassRecordSize(c)
  {
    size := 1 + 1 + 2 + 1 + 2 + 2 + 2 * |c.interfaces|;
    var j := 0;
    while j < |c.fields|
      invariant 0 <= j <= |c.fields| && size == 9 + 2 * |c.interfaces| + 7 * j
    {
      size := size + 1 + 1 + 2 + 1 + 2;
      j := j + 1;
    }
    j := 0;
    while j < |c.methods|
      invariant 0 <= j <= |c.methods| && size == 9 + 2 * |c.interfaces| + 7 * |c.fields| + 12 * j
    {
      size := size + 1 + 1 + 2 + 2 + 2 + 2 + 2;
      j := j + 1;
    }
  }

  // ---------------------------------------------------------------- the component

  /**
   * The descriptor component under construction: the stored type descriptors and
   * the next free offset, the constant pool types, the class descriptors, and the
   * lists `addClassDescriptor` fills for the class at hand.
   */
  class DescriptorComponent {
    var offsetDesc: int
    var typeDesc: seq<TypeEntry>
    var constantPoolTypes: seq<int>
    var constantPoolCount: int
    var classes: seq<ClassDescriptorInfo>
    var classCount: int
    var size: int
    var fieldDescriptorInfos: seq<FieldDescriptorInfo>
    var methodDescriptorInfos: seq<MethodDescriptorInfo>
    /** The offset of the first descriptor, fixed by the constructor. */
    ghost var start: int

    function Types(): TypeTable
      reads this
    {
      TypeTable(typeDesc, offsetDesc)
    }

    /** The stored descriptors are laid out back to back from `start`, none twice. */
    ghost predicate Valid()
      reads this
    {
      WellFormed(Types(), start)
    }

    /** An empty component whose first descriptor goes just past the constant pool types. */
    constructor (cp: Option<seq<CPEntry>>)
      ensures Valid() && offsetDesc == start == InitialOffset(cp) && typeDesc == []
      ensures constantPoolTypes == [] && constantPoolCount == 0 && classes == [] && classCount == 0 && size == 0
      ensures fieldDescriptorInfos == [] && methodDescriptorInfos == []
    {
      offsetDesc := InitialOffset(cp);
      start := offsetDesc;
      typeDesc := [];
      constantPoolTypes := [];
      constantPoolCount := 0;
      classes := [];
      classCount := 0;
      size := 0;
      fieldDescriptorInfos := [];
      methodDescriptorInfos := [];
    }

    /** `addTypeDesc`: the offset of an equal stored descriptor, else `d` stored at the next free offset. */
    method AddTypeDesc(d: TypeDescriptor) returns (offset: int)
      requires Valid()
      modifies this`typeDesc, this`offsetDesc
      ensures Valid()
      ensures (offset, Types()) == AddType(old(Types()), d)
    {
      var found := FindOffset(typeDesc, d);
      ghost var t := Types();
      AddTypeStep(t, start, d);
      if found.Some? {
        offset := found.value;
      } else {
        offset := offsetDesc;
        typeDesc := typeDesc + [TypeEntry(offset, d)];
        offsetDesc := offsetDesc + Span(d);
        assert Types() == TypeTable(t.entries + [TypeEntry(t.next, d)], t.next + Span(d));
      }
    }

    /** `addArrayOfPrimitive2TypeDesc`. */
    method AddArrayOfPrimitive(arrayType: int) returns (offset: int)
      requires Valid()
      modifies this`typeDesc, this`offsetDesc
      ensures Valid()
      ensures (offset, Types()) == AddType(old(Types()), ArrayDescriptor(arrayType))
    {
      offset := AddTypeDesc(TypeDescriptor(1, [ToByte(arrayType * 16)]));
    }

    /** `addPrimitive2TypeDesc`: refuses a reference, leaving the table alone. */
    method AddPrimitive(t: JType) returns (r: Result<int>)
      requires Valid()
      modifies this`typeDesc, this`offsetDesc
      ensures Valid()
      ensures r.Err? <==> t.kind == REFERENCE
      ensures r.Err? ==> Types() == old(Types())
      ensures r.Ok? ==> (r.value, Types()) == AddType(old(Types()), PrimitiveDescriptor(t).value)
    {
      var nibble := 0;
      match t.kind {
        case BOOLEAN => nibble := TYPE_DESC_BOOLEAN;
        case BYTE => nibble := TYPE_DESC_BYTE;
        case SHORT => nibble := TYPE_DESC_SHORT;
        case INT => nibble := TYPE_DESC_INT;
        case VOID =>
        case REFERENCE => return Err("Incorrect type");
      }
      if t.isArray {
        nibble := nibble + TYPE_DESC_ARRAY;
      }
      assert nibble == PrimitiveNibble(t);
      var offset := AddTypeDesc(TypeDescriptor(1, [ToByte(nibble * 16)]));
      return Ok(offset);
    }

    /** `addReference2TypeDesc`: the class by its tokens, or by the offset found by scanning the objects. */
    method AddReference(objs: seq<Object>, t: JType) returns (offset: int)
      requires Valid()
      modifies this`typeDesc, this`offsetDesc
      ensures Valid()
      ensures (offset, Types()) == AddType(old(Types()), ReferenceDescriptor(objs, t))
    {
      var v := 0;
      if !t.ref.hasToken {
        v := ClassOffset(objs, t.ref.name);
      }
      offset := AddTypeDesc(ReferenceTo(t, v));
    }

    /**
     * `computeField`: an undescribed field adds nothing; otherwise its descriptor is
     * appended and its type added to the table. A static field missing from the image
     * fails before anything changes.
     */
    method ComputeField(objs: seq<Object>, oi: int, fi: int, image: seq<Cell<Field>>)
      returns (r: Result<Option<FieldDescriptorInfo>>)
      requires Valid() && 0 <= oi < |objs| && 0 <= fi < |objs[oi].fields|
      modifies this`typeDesc, this`offsetDesc, this`fieldDescriptorInfos
      ensures Valid()
      ensures var e := FieldDescriptorOf(objs, oi, fi, image, old(Types()));
              (r.Err? <==> e.Err?) && (r.Ok? ==> (r.value, Types()) == e.value)
      ensures r.Ok? ==> fieldDescriptorInfos == old(fieldDescriptorInfos) + AsList(r.value)
      ensures r.Err? ==> Types() == old(Types()) && fieldDescriptorInfos == old(fieldDescriptorInfos)
    {
      var f := objs[oi].fields[fi];
      if Undescribed(f) {
        return Ok(None);
      }
      var token := FieldTokenOf(f, fi);
      if token.Err? {
        return Err(token.message);
      }
      var ref: FieldRefInfo;
      if f.isStatic {
        var column := FirstInRow(image, f.name);
        if column.None? {
          return Err("NoSuchElementException");
        }
        ref := StaticRef(0, column.value);
      } else {
        var classRef := ClassOffset(objs, Some(objs[oi].name));
        ref := InstanceRef(classRef, ToByte(IndexOfField(objs[oi].fields, f)));
      }
      var ty := FieldTypeDesc(objs, f.ftype);
      var d := FieldDescriptorInfo(token.value, FieldFlags(f), ref, ty);
      fieldDescriptorInfos := fieldDescriptorInfos + [d];
      return Ok(Some(d));
    }

    /** The type switch of `computeField`: a scalar primitive is encoded in place, the rest go to the table. */
    method FieldTypeDesc(objs: seq<Object>, ft: JType) returns (ty: int)
      requires Valid()
      modifies this`typeDesc, this`offsetDesc
      ensures Valid()
      ensures (ty, Types()) == FieldType(objs, ft, old(Types()))
    {
      ty := 0;
      match ft.kind {
        case VOID =>
        case REFERENCE =>
          ty := AddReference(objs, ft);
        case _ =>
          if ft.isArray {
            ty := AddArrayOfPrimitive(TypeNibble(ft));
          } else {
            ty := 0x8000 + TypeNibble(ft);
          }
      }
    }

    /**
     * `computeMethod`: appends the method's descriptor and adds its signature to the
     * table; a class method without an offset fails before anything changes.
     */
    method ComputeMethod(objs: seq<Object>, oi: int, mi: int, md: MethodData) returns (r: Result<MethodDescriptorInfo>)
      requires Valid() && 0 <= oi < |objs| && 0 <= mi < |objs[oi].methods|
      modifies this`typeDesc, this`offsetDesc, this`methodDescriptorInfos
      ensures Valid()
      ensures var e := MethodDescriptorOf(objs, oi, mi, md, old(Types()));
              (r.Err? <==> e.Err?) && (r.Ok? ==> (r.value, Types()) == e.value)
      ensures r.Ok? ==> methodDescriptorInfos == old(methodDescriptorInfos) + [r.value]
      ensures r.Err? ==> Types() == old(Types()) && methodDescriptorInfos == old(methodDescriptorInfos)
    {
      var o := objs[oi];
      var m := o.methods[mi];
      var sig := m.signature;
      var name := FullName(sig);
      var token := MethodTokenOf(m, mi);
      if token.Err? {
        return Err(token.message);
      }
      var offset := 0;
      if o.Class? {
        if name !in md.offsets {
          return Err("Method " + name + " had been not found");
        }
        offset := md.offsets[name];
      }
      var desc := GetMethodSignature(objs, sig.parameters, sig.returnType, sig.descriptors);
      if desc.Err? {
        return Err(desc.message);
      }
      var typeOffset := AddTypeDesc(desc.value);
      var count := 0;
      if o.Class? {
        count := FindBytecodeCount(md.infos, name);
      }
      var handlerCount := 0;
      if !(sig.isNative || sig.isAbstract) {
        handlerCount := ToShort(|m.code.handlers|);
      }
      var handlerIndex := 0;
      if handlerCount != 0 {
        handlerIndex := FindFirstHandler(md.handlers, name);
      }
      var d := MethodDescriptorInfo(token.value, MethodFlags(m), offset, typeOffset, count,
                                    handlerCount, handlerIndex);
      methodDescriptorInfos := methodDescriptorInfos + [d];
      return Ok(d);
    }

    /** The field loop of `addClassDescriptor`: describes the fields of object `oi` in declaration order. */
    method ComputeFields(objs: seq<Object>, oi: int, image: seq<Cell<Field>>)
      returns (r: Result<seq<FieldDescriptorInfo>>)
      requires Valid() && 0 <= oi < |objs| && fieldDescriptorInfos == []
      modifies this`typeDesc, this`offsetDesc, this`fieldDescriptorInfos
      ensures Valid()
      ensures var e := FieldsBefore(objs, oi, image, old(Types()), |objs[oi].fields|);
              (r.Err? <==> e.Err?) && (r.Ok? ==> e.value == (r.value, Types()) && fieldDescriptorInfos == r.value)
    {
      ghost var t0 := Types();
      var n := |objs[oi].fields|;
      var k := 0;
      while k < n
        invariant 0 <= k <= n && Valid()
        invariant FieldsBefore(objs, oi, image, t0, k) == Ok((fieldDescriptorInfos, Types()))
      {
        FieldsBeforeNext(objs, oi, image, t0, k, fieldDescriptorInfos, Types());
        var step := ComputeField(objs, oi, k, image);
        if step.Err? {
          FieldsBeforeErr(objs, oi, image, t0, k + 1, n);
          return Err(step.message);
        }
        k := k + 1;
      }
      return Ok(fieldDescriptorInfos);
    }

    /** The method loop of `addClassDescriptor`: describes the methods of object `oi` in declaration order. */
    method ComputeMethods(objs: seq<Object>, oi: int, md: MethodData) returns (r: Result<seq<MethodDescriptorInfo>>)
      requires Valid() && 0 <= oi < |objs| && methodDescriptorInfos == []
      modifies this`typeDesc, this`offsetDesc, this`methodDescriptorInfos
      ensures Valid()
      ensures var e := MethodsBefore(objs, oi, md, old(Types()), |objs[oi].methods|);
              (r.Err? <==> e.Err?) && (r.Ok? ==> e.value == (r.value, Types()) && methodDescriptorInfos == r.value)
    {
      ghost var t0 := Types();
      var n := |objs[oi].methods|;
      var k := 0;
      while k < n
        invariant 0 <= k <= n && Valid()
        invariant MethodsBefore(objs, oi, md, t0, k) == Ok((methodDescriptorInfos, Types()))
      {
        MethodsBeforeNext(objs, oi, md, t0, k, methodDescriptorInfos, Types());
        var step := ComputeMethod(objs, oi, k, md);
        if step.Err? {
          MethodsBeforeErr(objs, oi, md, t0, k + 1, n);
          return Err(step.message);
        }
        k := k + 1;
      }
      return Ok(methodDescriptorInfos);
    }

    /**
     * `addClassDescriptor`: the descriptor of object `oi` is appended to the classes, its
     * fields sorted by reference, and its types added to the table. On failure no class
     * is added and the table stays well formed, though it may already hold the types of
     * the members described before the failing one.
     */
    method AddClassDescriptor(objs: seq<Object>, oi: int, image: seq<Cell<Field>>, md: MethodData)
      returns (r: Result<ClassDescriptorInfo>)
      requires Valid() && 0 <= oi < |objs|
      modifies this`typeDesc, this`offsetDesc, this`fieldDescriptorInfos, this`methodDescriptorInfos, this`classes
      ensures Valid()
      ensures var e := ClassDescriptorOf(objs, oi, image, md, old(Types()));
              (r.Err? <==> e.Err?) && (r.Ok? ==> (r.value, Types()) == e.value)
      ensures r.Ok? ==> classes == old(classes) + [r.value]
      ensures r.Err? ==> classes == old(classes)
    {
      fieldDescriptorInfos := [];
      methodDescriptorInfos := [];
      var o := objs[oi];
      var token := ComputeClassToken(objs, oi);
      var thisClassRef := ClassOffset(objs, Some(o.name));
      var interfaces := InterfaceRefsOf(objs, oi);
      var fields := ComputeFields(objs, oi, image);
      if fields.Err? {
        return Err(fields.message);
      }
      fieldDescriptorInfos := SortFields(fieldDescriptorInfos);
      var methods := ComputeMethods(objs, oi, md);
      if methods.Err? {
        return Err(methods.message);
      }
      var c := ClassDescriptorInfo(token, ClassFlags(o), thisClassRef, ToByte(|interfaces|), interfaces,
                                   ToShort(|fieldDescriptorInfos|), fieldDescriptorInfos,
                                   ToShort(|methodDescriptorInfos|), methodDescriptorInfos);
      classes := classes + [c];
      return Ok(c);
    }

    /**
     * `computeComponentSize`: `class_count`, the class records, the constant pool count
     * and types, then each stored descriptor. The 16-bit sum wraps once at the end,
     * which is where a sum wrapped at every step ends up too.
     */
    method ComputeComponentSize() returns (s: int)
      ensures s == ToShort(ComponentSize(classes, constantPoolCount, typeDesc))
    {
      var total := 1;
      var k := 0;
      while k < |classes|
        invariant 0 <= k <= |classes| && total == 1 + ClassesSize(classes[..k])
      {
        var record := RecordSize(classes[k]);
        assert classes[..k + 1][..k] == classes[..k];
        total := total + record;
        k := k + 1;
      }
      assert classes[..|classes|] == classes;
      total := total + 2 + 2 * constantPoolCount;
      k := 0;
      while k < |typeDesc|
        invariant 0 <= k <= |typeDesc|
        invariant total == 1 + ClassesSize(classes) + 2 + 2 * constantPoolCount + SpanBefore(typeDesc, k)
      {
        total := total + 1 + |typeDesc[k].desc.bytes|;
        k := k + 1;
      }
      s := ToShort(total);
    }

    /** `finalizeDescriptorBuild`: the class count as a byte and the component size as a 16-bit value. */
    method FinalizeDescriptorBuild()
      modifies this`classCount, this`size
      ensures classCount == ToByte(|classes|)
      ensures size == ToShort(ComponentSize(classes, constantPoolCount, typeDesc))
    {
      classCount := ToByte(|classes|);
      size := ComputeComponentSize();
    }

    /** The constant pool component appends one type per entry to `constant_pool_types`. */
    method AddConstantPoolType(ty: int)
      modifies this`constantPoolTypes
      ensures constantPoolTypes == old(constantPoolTypes) + [ty]
    {
      constantPoolTypes := constantPoolTypes + [ty];
    }

    /** The constant pool component finally records how many types it appended. */
    method SetConstantPoolCount(count: int)
      modifies this`constantPoolCount
      ensures constantPoolCount == count
    {
      constantPoolCount := count;
    }
  }
}
