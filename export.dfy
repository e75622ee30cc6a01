/**
 * The export component (section 6.12 of the Java Card 2.1 Virtual Machine
 * Specification): one entry per exported class or interface, giving its offset in
 * the class component and the offsets of its exported static fields and methods.
 * An applet package exports only its shareable interfaces; a library package its
 * public classes and interfaces, with their public or protected static members and
 * constructors.
 */
module Export {
  import opened Wrappers
  import opened Bytes
  import opened Jca
  import opened Table
  import D = Descriptor

  /** One class export entry; `staticFields` keeps the exported fields beside their image offsets. */
  datatype ClassExport = ClassExport(classOffset: int, staticFieldCount: int, staticMethodCount: int,
                                     staticFieldOffsets: seq<int>, staticMethodOffsets: seq<int>,
                                     staticFields: seq<Field>)

  // ---------------------------------------------------------------- selection rules

  /** An object with an entry: a shareable interface of an applet package, a public object of a library. */
  predicate ExportsObject(applet: bool, o: Object)
  {
    if applet then o.Interface? && o.isShareable else o.accessor == PUBLIC
  }

  predicate PublicOrProtected(a: Accessor)
  {
    a == PUBLIC || a == PROTECTED
  }

  /**
   * A field with an entry: any non-final field of an exported interface of an applet
   * package; a public or protected static non-final field of a library's object.
   */
  predicate ExportsField(applet: bool, f: Field)
  {
    if applet then !f.isFinal else PublicOrProtected(f.accessor) && f.isStatic && !f.isFinal
  }

  /**
   * A method with an entry: a static method of an applet package's interface; a
   * public or protected static method or constructor of a library's object.
   */
  predicate ExportsMethod(applet: bool, m: Method)
  {
    if applet then m.isStatic else PublicOrProtected(m.accessor) && (m.isStatic || D.IsInit(m))
  }

  /** The exported fields, in declaration order. */
  function ExportedFields(applet: bool, fs: seq<Field>): seq<Field>
  {
    if fs == [] then []
    else ExportedFields(applet, fs[..|fs| - 1]) + (if ExportsField(applet, fs[|fs| - 1]) then [fs[|fs| - 1]] else [])
  }

  /** The exported methods, in declaration order. */
  function ExportedMethods(applet: bool, ms: seq<Method>): seq<Method>
  {
    if ms == [] then []
    else ExportedMethods(applet, ms[..|ms| - 1]) + (if ExportsMethod(applet, ms[|ms| - 1]) then [ms[|ms| - 1]] else [])
  }

  /** Exactly the fields the rules select are exported. */
  lemma {:induction false} ExportedFieldsMeaning(applet: bool, fs: seq<Field>)
    ensures forall f :: f in ExportedFields(applet, fs) <==> f in fs && ExportsField(applet, f)
  {
    if fs != [] {
      ExportedFieldsMeaning(applet, fs[..|fs| - 1]);
      assert fs == fs[..|fs| - 1] + [fs[|fs| - 1]];
    }
  }

  /** Exactly the methods the rules select are exported. */
  lemma {:induction false} ExportedMethodsMeaning(applet: bool, ms: seq<Method>)
    ensures forall m :: m in ExportedMethods(applet, ms) <==> m in ms && ExportsMethod(applet, m)
  {
    if ms != [] {
      ExportedMethodsMeaning(applet, ms[..|ms| - 1]);
      assert ms == ms[..|ms| - 1] + [ms[|ms| - 1]];
    }
  }

  // ---------------------------------------------------------------- static members of one object

  /**
   * The field loop: for each exported field, the first image offset recorded under
   * its name, and the field itself; a field the image does not hold fails.
   */
  function FieldExports(applet: bool, image: seq<Cell<Field>>, fs: seq<Field>): Result<(seq<int>, seq<Field>)>
  {
    if fs == [] then Ok(([], []))
    else
      var prev :- FieldExports(applet, image, fs[..|fs| - 1]);
      var f := fs[|fs| - 1];
      if !ExportsField(applet, f) then Ok(prev)
      else match FirstInRow(image, f.name)
        case None => Err("NoSuchElementException")
        case Some(offset) => Ok((prev.0 + [offset], prev.1 + [f]))
  }

  /**
   * The field loop fails exactly when the image holds no offset for an exported field;
   * otherwise it lists the exported fields, each with the first offset of its name.
   */
  lemma {:induction false} FieldExportsMeaning(applet: bool, image: seq<Cell<Field>>, fs: seq<Field>)
    ensures var r := FieldExports(applet, image, fs);
            && (r.Err? <==> exists i :: 0 <= i < |fs| && ExportsField(applet, fs[i]) && FirstInRow(image, fs[i].name).None?)
            && (r.Ok? ==> r.value.1 == ExportedFields(applet, fs) && |r.value.0| == |r.value.1|)
            && (r.Ok? ==> forall j :: 0 <= j < |r.value.0| ==> FirstInRow(image, r.value.1[j].name) == Some(r.value.0[j]))
  {
    if fs != [] {
      var init := fs[..|fs| - 1];
      FieldExportsMeaning(applet, image, init);
      var r := FieldExports(applet, image, fs);
      if exists i :: 0 <= i < |init| && ExportsField(applet, init[i]) && FirstInRow(image, init[i].name).None? {
        var i :| 0 <= i < |init| && ExportsField(applet, init[i]) && FirstInRow(image, init[i].name).None?;
        assert fs[i] == init[i];
      }
      if exists i :: 0 <= i < |fs| && ExportsField(applet, fs[i]) && FirstInRow(image, fs[i].name).None? {
        var i :| 0 <= i < |fs| && ExportsField(applet, fs[i]) && FirstInRow(image, fs[i].name).None?;
        if i < |init| {
          assert init[i] == fs[i];
        }
      }
      if r.Ok? {
        var p := FieldExports(applet, image, init).value;
        if ExportsField(applet, fs[|fs| - 1]) {
          assert r.value.0 == p.0 + [r.value.0[|p.0|]] && r.value.1 == p.1 + [fs[|fs| - 1]];
        }
      }
    }
  }

  /** Once a prefix of the fields fails, all of them fail the same way. */
  lemma {:induction false} FieldExportsErr(applet: bool, image: seq<Cell<Field>>, fs: seq<Field>, n: int)
    requires 0 <= n <= |fs| && FieldExports(applet, image, fs[..n]).Err?
    ensures FieldExports(applet, image, fs) == FieldExports(applet, image, fs[..n])
  {
    if n < |fs| {
      var init := fs[..|fs| - 1];
      assert init[..n] == fs[..n];
      FieldExportsErr(applet, image, init, n);
    } else {
      assert fs[..n] == fs;
    }
  }

  /** The method loop: for each exported method, the offset recorded for its full name; a method without one fails. */
  function MethodExports(applet: bool, offsets: map<string, int>, ms: seq<Method>): Result<seq<int>>
  {
    if ms == [] then Ok([])
    else
      var prev :- MethodExports(applet, offsets, ms[..|ms| - 1]);
      var m := ms[|ms| - 1];
      if !ExportsMethod(applet, m) then Ok(prev)
      else if FullName(m.signature) in offsets then Ok(prev + [offsets[FullName(m.signature)]])
      else Err("NullPointerException")
  }

  /**
   * The method loop fails exactly when the method component has no offset for an
   * exported method; otherwise it lists the offsets of the exported methods in order.
   */
  lemma {:induction false} MethodExportsMeaning(applet: bool, offsets: map<string, int>, ms: seq<Method>)
    ensures var r := MethodExports(applet, offsets, ms);
            var em := ExportedMethods(applet, ms);
            && (r.Err? <==> exists i :: 0 <= i < |ms| && ExportsMethod(applet, ms[i]) && FullName(ms[i].signature) !in offsets)
            && (r.Ok? ==> |r.value| == |em|)
            && (r.Ok? ==> forall j :: 0 <= j < |em| ==>
                  FullName(em[j].signature) in offsets && r.value[j] == offsets[FullName(em[j].signature)])
  {
    if ms != [] {
      var init := ms[..|ms| - 1];
      MethodExportsMeaning(applet, offsets, init);
      if exists i :: 0 <= i < |init| && ExportsMethod(applet, init[i]) && FullName(init[i].signature) !in offsets {
        var i :| 0 <= i < |init| && ExportsMethod(applet, init[i]) && FullName(init[i].signature) !in offsets;
        assert ms[i] == init[i];
      }
      if exists i :: 0 <= i < |ms| && ExportsMethod(applet, ms[i]) && FullName(ms[i].signature) !in offsets {
        var i :| 0 <= i < |ms| && ExportsMethod(applet, ms[i]) && FullName(ms[i].signature) !in offsets;
        if i < |init| {
          assert init[i] == ms[i];
        }
      }
    }
  }

  /** One more method of the loop. */
  lemma MethodExportsStep(applet: bool, offsets: map<string, int>, ms: seq<Method>, k: int, prev: seq<int>)
    requires 0 <= k < |ms| && MethodExports(applet, offsets, ms[..k]) == Ok(prev)
    ensures MethodExports(applet, offsets, ms[..k + 1]) ==
              if !ExportsMethod(applet, ms[k]) then Ok(prev)
              else if FullName(ms[k].signature) in offsets then Ok(prev + [offsets[FullName(ms[k].signature)]])
              else Err("NullPointerException")
  {
    assert ms[..k + 1][..k] == ms[..k] && ms[..k + 1][k] == ms[k];
  }

  /** Once a prefix of the methods fails, all of them fail the same way. */
  lemma {:induction false} MethodExportsErr(applet: bool, offsets: map<string, int>, ms: seq<Method>, n: int)
    requires 0 <= n <= |ms| && MethodExports(applet, offsets, ms[..n]).Err?
    ensures MethodExports(applet, offsets, ms) == MethodExports(applet, offsets, ms[..n])
  {
    if n < |ms| {
      var init := ms[..|ms| - 1];
      assert init[..n] == ms[..n];
      MethodExportsErr(applet, offsets, init, n);
    } else {
      assert ms[..n] == ms;
    }
  }

  /** The entry of one object at `classOffset`, none when the object is not exported. */
  function ClassExportOf(applet: bool, image: seq<Cell<Field>>, offsets: map<string, int>, o: Object, classOffset: int)
    : Result<Option<ClassExport>>
  {
    if !ExportsObject(applet, o) then Ok(None)
    else
      var fields :- FieldExports(applet, image, o.fields);
      var methods :- MethodExports(applet, offsets, o.methods);
      Ok(Some(ClassExport(classOffset, ToByte(|fields.0|), ToByte(|methods|), fields.0, methods, fields.1)))
  }

  /**
   * An entry lists the object's exported fields with their image offsets and its
   * exported methods' offsets, and counts each list in a byte.
   */
  lemma ClassExportMeaning(applet: bool, image: seq<Cell<Field>>, offsets: map<string, int>, o: Object, classOffset: int)
    ensures var r := ClassExportOf(applet, image, offsets, o, classOffset);
            && (!ExportsObject(applet, o) ==> r == Ok(None))
            && (ExportsObject(applet, o) && r.Ok? ==>
                  var e := r.value.value;
                  && e.classOffset == classOffset
                  && e.staticFields == ExportedFields(applet, o.fields)
                  && |e.staticFieldOffsets| == |e.staticFields| && e.staticFieldCount == ToByte(|e.staticFieldOffsets|)
                  && |e.staticMethodOffsets| == |ExportedMethods(applet, o.methods)|
                  && e.staticMethodCount == ToByte(|e.staticMethodOffsets|))
  {
    FieldExportsMeaning(applet, image, o.fields);
    MethodExportsMeaning(applet, offsets, o.methods);
  }

  // ---------------------------------------------------------------- the component

  /** The entry each object position yields, or the exception it throws. */
  type Entries = int -> Result<Option<ClassExport>>

  /** The constructor's entry for object `i`, at the 16-bit sum of the record sizes of all objects before it. */
  function EntryAt(applet: bool, image: seq<Cell<Field>>, offsets: map<string, int>, objs: seq<Object>, i: int)
    : Result<Option<ClassExport>>
  {
    if 0 <= i < |objs| then ClassExportOf(applet, image, offsets, objs[i], ToShort(OffsetBefore(objs, i))) else Ok(None)
  }

  /** The constructor's entries. */
  function EntriesOf(applet: bool, image: seq<Cell<Field>>, offsets: map<string, int>, objs: seq<Object>): Entries
  {
    i => EntryAt(applet, image, offsets, objs, i)
  }

  /** The first `n` iterations of a loop collecting entries, stopping at the first exception. */
  function Collect(entries: Entries, n: nat): Result<seq<ClassExport>>
  {
    if n == 0 then Ok([])
    else
      var prev :- Collect(entries, n - 1);
      var e :- entries(n - 1);
      if e.Some? then Ok(prev + [e.value]) else Ok(prev)
  }

  /** The first `n` iterations of the constructor's loop. */
  function ExportsBefore(applet: bool, image: seq<Cell<Field>>, offsets: map<string, int>, objs: seq<Object>, n: int)
    : Result<seq<ClassExport>>
    requires 0 <= n <= |objs|
  {
    Collect(EntriesOf(applet, image, offsets, objs), n)
  }

  /** The positions among the first `n` that yield an entry, in order. */
  function Present(entries: Entries, n: nat): (r: seq<int>)
    ensures forall j :: 0 <= j < |r| ==> 0 <= r[j] < n && entries(r[j]).Ok? && entries(r[j]).value.Some?
    ensures forall j, k :: 0 <= j < k < |r| ==> r[j] < r[k]
  {
    if n == 0 then []
    else Present(entries, n - 1) + (if entries(n - 1).Ok? && entries(n - 1).value.Some? then [n - 1] else [])
  }

  /** A successful collection holds the entries of the present positions, in order. */
  lemma {:induction false} CollectMeaning(entries: Entries, n: nat)
    ensures var r := Collect(entries, n);
            var idx := Present(entries, n);
            r.Ok? ==> |r.value| == |idx| && forall j :: 0 <= j < |idx| ==> entries(idx[j]) == Ok(Some(r.value[j]))
  {
    if n > 0 {
      CollectMeaning(entries, n - 1);
    }
  }

  /** A collection fails exactly when one of its positions throws. */
  lemma {:induction false} CollectRefused(entries: Entries, n: nat)
    ensures Collect(entries, n).Err? <==> exists i :: 0 <= i < n && entries(i).Err?
  {
    if n > 0 {
      CollectRefused(entries, n - 1);
      if !Collect(entries, n - 1).Err? && !entries(n - 1).Err? {
        forall i | 0 <= i < n
          ensures !entries(i).Err?
        {
        }
      }
    }
  }

  /** Once a prefix fails, every longer collection fails. */
  lemma {:induction false} CollectErr(entries: Entries, n: nat, k: nat)
    requires n <= k && Collect(entries, n).Err?
    ensures Collect(entries, k).Err?
  {
    if k > n {
      CollectErr(entries, n, k - 1);
    }
  }

  /** The indices of the exported objects among the first `n`, in order. */
  function ExportedObjects(applet: bool, objs: seq<Object>, n: int): (r: seq<int>)
    requires 0 <= n <= |objs|
    ensures forall j :: 0 <= j < |r| ==> 0 <= r[j] < n && ExportsObject(applet, objs[r[j]])
    ensures forall j, k :: 0 <= j < k < |r| ==> r[j] < r[k]
  {
    if n == 0 then []
    else ExportedObjects(applet, objs, n - 1) + (if ExportsObject(applet, objs[n - 1]) then [n - 1] else [])
  }

  /** Every exported object among the first `n` has its index listed. */
  lemma {:induction false} ExportedObjectsComplete(applet: bool, objs: seq<Object>, n: int, i: int)
    requires 0 <= i < n <= |objs| && ExportsObject(applet, objs[i])
    ensures i in ExportedObjects(applet, objs, n)
  {
    if i < n - 1 {
      ExportedObjectsComplete(applet, objs, n - 1, i);
    }
  }

  /** An object that does not throw has an entry exactly when it is exported. */
  lemma ClassExportPresent(applet: bool, image: seq<Cell<Field>>, offsets: map<string, int>, o: Object, classOffset: int)
    requires ClassExportOf(applet, image, offsets, o, classOffset).Ok?
    ensures ClassExportOf(applet, image, offsets, o, classOffset).value.Some? <==> ExportsObject(applet, o)
  {
  }

  /** When the constructor succeeds, the positions with an entry are the exported objects. */
  lemma {:induction false} PresentExported(applet: bool, image: seq<Cell<Field>>, offsets: map<string, int>,
                                           objs: seq<Object>, n: int)
    requires 0 <= n <= |objs| && ExportsBefore(applet, image, offsets, objs, n).Ok?
    ensures Present(EntriesOf(applet, image, offsets, objs), n) == ExportedObjects(applet, objs, n)
  {
    if n > 0 {
      var entries := EntriesOf(applet, image, offsets, objs);
      PresentExported(applet, image, offsets, objs, n - 1);
      assert entries(n - 1) == EntryAt(applet, image, offsets, objs, n - 1);
      ClassExportPresent(applet, image, offsets, objs[n - 1], ToShort(OffsetBefore(objs, n - 1)));
    }
  }

  /**
   * The component has one entry per exported object, in declaration order, the entry
   * of object `i` placed at the 16-bit sum of `classSize` over all objects before it,
   * exported or not.
   */
  lemma ExportsMeaning(applet: bool, image: seq<Cell<Field>>, offsets: map<string, int>, objs: seq<Object>)
    ensures var r := ExportsBefore(applet, image, offsets, objs, |objs|);
            var idx := ExportedObjects(applet, objs, |objs|);
            r.Ok? ==> |r.value| == |idx| &&
                      forall j :: 0 <= j < |idx| ==>
                        ClassExportOf(applet, image, offsets, objs[idx[j]], ToShort(OffsetBefore(objs, idx[j]))) ==
                          Ok(Some(r.value[j]))
  {
    var entries := EntriesOf(applet, image, offsets, objs);
    CollectMeaning(entries, |objs|);
    if ExportsBefore(applet, image, offsets, objs, |objs|).Ok? {
      PresentExported(applet, image, offsets, objs, |objs|);
    }
  }

  /** The component is refused exactly when the entry of one of its objects is. */
  lemma ExportsRefused(applet: bool, image: seq<Cell<Field>>, offsets: map<string, int>, objs: seq<Object>)
    ensures ExportsBefore(applet, image, offsets, objs, |objs|).Err? <==>
              exists i :: 0 <= i < |objs| && ClassExportOf(applet, image, offsets, objs[i], ToShort(OffsetBefore(objs, i))).Err?
  {
    var entries := EntriesOf(applet, image, offsets, objs);
    CollectRefused(entries, |objs|);
    assert forall i :: 0 <= i < |objs| ==>
      entries(i) == ClassExportOf(applet, image, offsets, objs[i], ToShort(OffsetBefore(objs, i)));
  }

  // ---------------------------------------------------------------- sizes

  /**
   * `ClassExportsInfoFromJCA.computeComponentSize`: the offset, the two counts, and 2
   * bytes per counted field and method; a count is a Java byte, so a count above 127
   * is negative here.
   */
  function EntrySize(e: ClassExport): int
  {
    ToShort(4 + 2 * SignedByte(ToByte(e.staticFieldCount)) + 2 * SignedByte(ToByte(e.staticMethodCount)))
  }

  /** The 16-bit sum of the entry sizes. */
  function EntriesSize(es: seq<ClassExport>): int
  {
    if es == [] then 0 else ToShort(EntriesSize(es[..|es| - 1]) + EntrySize(es[|es| - 1]))
  }

  /** The export component's size: none at all when the entries take no bytes, else the class count and the entries. */
  function ExportSize(es: seq<ClassExport>): int
  {
    var total := EntriesSize(es);
    if total == 0 then 0 else ToShort(1 + total)
  }

  /** The bytes of the entries, read from their lists: 4 bytes and 2 per field and method offset. */
  function ListedSize(es: seq<ClassExport>): int
  {
    if es == [] then 0
    else ListedSize(es[..|es| - 1]) + 4 + 2 * |es[|es| - 1].staticFieldOffsets| + 2 * |es[|es| - 1].staticMethodOffsets|
  }

  /** An entry whose counts are its list lengths, both below 128. */
  predicate SmallEntry(e: ClassExport)
  {
    && e.staticFieldCount == |e.staticFieldOffsets| < 128
    && e.staticMethodCount == |e.staticMethodOffsets| < 128
  }

  /**
   * With no entry the component is empty; with small entries whose bytes fit in 16
   * bits it holds the class count and every entry, so it is empty exactly when there
   * is no entry.
   */
  lemma {:induction false} ExportSizeMeaning(es: seq<ClassExport>)
    ensures es == [] ==> ExportSize(es) == 0
    ensures (forall j :: 0 <= j < |es| ==> SmallEntry(es[j])) && ListedSize(es) < 65535 ==>
              ExportSize(es) == (if es == [] then 0 else 1 + ListedSize(es))
  {
    if es != [] && (forall j :: 0 <= j < |es| ==> SmallEntry(es[j])) && ListedSize(es) < 65535 {
      EntriesSizeListed(es);
    }
  }

  lemma {:induction false} EntriesSizeListed(es: seq<ClassExport>)
    requires forall j :: 0 <= j < |es| ==> SmallEntry(es[j])
    requires ListedSize(es) < 65536
    ensures EntriesSize(es) == ListedSize(es)
    ensures es != [] ==> ListedSize(es) >= 4
  {
    if es != [] {
      var init := es[..|es| - 1];
      assert forall j :: 0 <= j < |init| ==> init[j] == es[j];
      EntriesSizeListed(init);
    }
  }

  /**
   * `clone`: the offset, the counts and the three lists copied element by element,
   * the copy equal to the entry.
   */
  method CloneExport(e: ClassExport) returns (c: ClassExport)
    ensures c == e
  {
    var fieldOffsets: seq<int> := [];
    var k := 0;
    while k < |e.staticFieldOffsets|
      invariant 0 <= k <= |e.staticFieldOffsets| && fieldOffsets == e.staticFieldOffsets[..k]
    {
      fieldOffsets := fieldOffsets + [e.staticFieldOffsets[k]];
      k := k + 1;
    }
    var methodOffsets: seq<int> := [];
    k := 0;
    while k < |e.staticMethodOffsets|
      invariant 0 <= k <= |e.staticMethodOffsets| && methodOffsets == e.staticMethodOffsets[..k]
    {
      methodOffsets := methodOffsets + [e.staticMethodOffsets[k]];
      k := k + 1;
    }
    var fields: seq<Field> := [];
    k := 0;
    while k < |e.staticFields|
      invariant 0 <= k <= |e.staticFields| && fields == e.staticFields[..k]
    {
      fields := fields + [e.staticFields[k]];
      k := k + 1;
    }
    assert e.staticFieldOffsets[..|e.staticFieldOffsets|] == e.staticFieldOffsets;
    assert e.staticMethodOffsets[..|e.staticMethodOffsets|] == e.staticMethodOffsets;
    assert e.staticFields[..|e.staticFields|] == e.staticFields;
    c := ClassExport(e.classOffset, e.staticFieldCount, e.staticMethodCount, fieldOffsets, methodOffsets, fields);
  }

  // ---------------------------------------------------------------- loops

  /** The field loop of one object. */
  method ComputeFieldExports(applet: bool, image: seq<Cell<Field>>, fs: seq<Field>)
    returns (r: Result<(seq<int>, seq<Field>)>)
    ensures r == FieldExports(applet, image, fs)
  {
    var fieldOffsets: seq<int> := [];
    var fields: seq<Field> := [];
    var k := 0;
    while k < |fs|
      invariant 0 <= k <= |fs| && FieldExports(applet, image, fs[..k]) == Ok((fieldOffsets, fields))
    {
      assert fs[..k + 1][..k] == fs[..k] && fs[..k + 1][k] == fs[k];
      var f := fs[k];
      if ExportsField(applet, f) {
        var offset := FirstInRow(image, f.name);
        if offset.None? {
          FieldExportsErr(applet, image, fs, k + 1);
          return Err("NoSuchElementException");
        }
        fieldOffsets := fieldOffsets + [offset.value];
        fields := fields + [f];
      }
      k := k + 1;
    }
    assert fs[..|fs|] == fs;
    return Ok((fieldOffsets, fields));
  }

  /** The method loop of one object. */
  method ComputeMethodExports(applet: bool, offsets: map<string, int>, ms: seq<Method>) returns (r: Result<seq<int>>)
    ensures r == MethodExports(applet, offsets, ms)
  {
    var methodOffsets: seq<int> := [];
    var k := 0;
    while k < |ms|
      invariant 0 <= k <= |ms| && MethodExports(applet, offsets, ms[..k]) == Ok(methodOffsets)
    {
      MethodExportsStep(applet, offsets, ms, k, methodOffsets);
      var m := ms[k];
      if ExportsMethod(applet, m) {
        var name := FullName(m.signature);
        if name !in offsets {
          MethodExportsErr(applet, offsets, ms, k + 1);
          return Err("NullPointerException");
        }
        methodOffsets := methodOffsets + [offsets[name]];
      }
      k := k + 1;
    }
    assert ms[..|ms|] == ms;
    return Ok(methodOffsets);
  }

  /** One iteration of the constructor's loop: the entry of one object, if it is exported. */
  method ExportObject(applet: bool, image: seq<Cell<Field>>, offsets: map<string, int>, o: Object, classOffset: int)
    returns (r: Result<Option<ClassExport>>)
    ensures r == ClassExportOf(applet, image, offsets, o, classOffset)
  {
    if applet {
      if !o.Interface? || !o.isShareable {
        return Ok(None);
      }
    } else if o.accessor != PUBLIC {
      return Ok(None);
    }
    var fields := ComputeFieldExports(applet, image, o.fields);
    if fields.Err? {
      return Err(fields.message);
    }
    var methods := ComputeMethodExports(applet, offsets, o.methods);
    if methods.Err? {
      return Err(methods.message);
    }
    var fo := fields.value.0;
    var mo := methods.value;
    return Ok(Some(ClassExport(classOffset, ToByte(|fo|), ToByte(|mo|), fo, mo, fields.value.1)));
  }

  /** One iteration of the constructor's loop: the object's entry, if any, and the class offset advanced over it. */
  method ExportNext(applet: bool, image: seq<Cell<Field>>, offsets: map<string, int>, objs: seq<Object>,
                    k: int, classOffset: int, exports: seq<ClassExport>)
    returns (r: Result<(seq<ClassExport>, int)>)
    requires 0 <= k < |objs| && classOffset == ToShort(OffsetBefore(objs, k))
    requires ExportsBefore(applet, image, offsets, objs, k) == Ok(exports)
    ensures r.Err? ==> ExportsBefore(applet, image, offsets, objs, k + 1).Err?
    ensures r.Ok? ==> ExportsBefore(applet, image, offsets, objs, k + 1) == Ok(r.value.0) &&
                      r.value.1 == ToShort(OffsetBefore(objs, k + 1))
  {
    var e := ExportObject(applet, image, offsets, objs[k], classOffset);
    assert EntriesOf(applet, image, offsets, objs)(k) == e;
    if e.Err? {
      return Err(e.message);
    }
    ShortAdd(OffsetBefore(objs, k), ClassSize(objs[k]));
    var nextOffset := ToShort(classOffset + ClassSize(objs[k]));
    if e.value.Some? {
      return Ok((exports + [e.value.value], nextOffset));
    }
    return Ok((exports, nextOffset));
  }

  /** The export component: its entries, their count and its size. */
  class ExportComponent {
    var classExports: seq<ClassExport>
    var classCount: int
    var size: int

    constructor ()
      ensures classExports == [] && classCount == 0 && size == 0
    {
      classExports := [];
      classCount := 0;
      size := 0;
    }

    /**
     * `ExportComponentFromJCA`'s constructor: for each object in order, its entry when
     * it is exported, while the class offset advances over every object.
     */
    method Convert(applet: bool, image: seq<Cell<Field>>, offsets: map<string, int>, objs: seq<Object>)
      returns (r: Result<()>)
      modifies this
      ensures var p := ExportsBefore(applet, image, offsets, objs, |objs|);
              && (r.Err? <==> p.Err?)
              && (r.Ok? ==> classExports == p.value && classCount == ToByte(|classExports|) &&
                            size == ExportSize(classExports))
    {
      var exports: seq<ClassExport> := [];
      var classOffset := 0;
      var k := 0;
      while k < |objs|
        invariant 0 <= k <= |objs| && classOffset == ToShort(OffsetBefore(objs, k))
        invariant ExportsBefore(applet, image, offsets, objs, k) == Ok(exports)
      {
        var next := ExportNext(applet, image, offsets, objs, k, classOffset, exports);
        if next.Err? {
          CollectErr(EntriesOf(applet, image, offsets, objs), k + 1, |objs|);
          return Err(next.message);
        }
        exports, classOffset := next.value.0, next.value.1;
        k := k + 1;
      }
      classExports := exports;
      classCount := ToByte(|exports|);
      size := ComputeComponentSize();
      return Ok(());
    }

    /** `computeComponentSize`: the 16-bit sum of the entry sizes, and the class count byte unless that sum is 0. */
    method ComputeComponentSize() returns (s: int)
      ensures s == ExportSize(classExports)
    {
      var total := 0;
      var k := 0;
      while k < |classExports|
        invariant 0 <= k <= |classExports| && total == EntriesSize(classExports[..k])
      {
        assert classExports[..k + 1][..k] == classExports[..k];
        var e := classExports[k];
        total := ToShort(total + ToShort(4 + 2 * SignedByte(ToByte(e.staticFieldCount)) +
                                         2 * SignedByte(ToByte(e.staticMethodCount))));
        k := k + 1;
      }
      assert classExports[..|classExports|] == classExports;
      if total == 0 {
        return 0;
      }
      return ToShort(1 + total);
    }
  }
}
