/**
 * The flash filesystem of the card: every package's CAP file with its static field
 * component taken out and its static references renumbered, the package's statics as
 * flash records, and the binary image of tagged blocks built from both.
 */
module Flash {
  import opened Wrappers
  import opened Bytes
  import opened Jca
  import opened Table
  import SF = StaticField
  import CP = ConstantPool
  import Ex = Export
  import C = Components
  import IntelHex

  const FILETYPE_PKGLIST: int := 0x00
  const FILETYPE_CAP: int := 0x01
  const FILETYPE_STATIC: int := 0x02
  const JCVM_MAX_PACKAGES: int := 64

  const FIELD_TYPE_BYTE: int := 0
  const FIELD_TYPE_BOOLEAN: int := 1
  const FIELD_TYPE_SHORT: int := 2
  const FIELD_TYPE_INT: int := 3
  const FIELD_TYPE_OBJECT: int := 4
  /** The array variants set the top bit: `(byte) ((1 << 7) | type)`. */
  const FIELD_TYPE_ARRAY: int := 0x80

  // ---------------------------------------------------------------- flash static fields

  /** A static field as the flash keeps it: its type, its flags, its name and its value bytes. */
  datatype FlashStaticField = FlashStaticField(ftype: JType, isArray: bool, isInit: bool, name: string,
                                               values: seq<int>)

  /** The layout a value takes: a reference is written like a short. */
  function WireKind(k: Kind): Kind
  {
    if k == REFERENCE then SHORT else k
  }

  /** `n` zero bytes. */
  function Zeros(n: nat): (r: seq<int>)
    ensures |r| == n && forall i :: 0 <= i < n ==> r[i] == 0
  {
    if n == 0 then [] else Zeros(n - 1) + [0]
  }

  /**
   * `FlashStaticField`'s constructor: the initial values in big-endian order, zeros
   * for an uninitialised scalar, nothing for an uninitialised array; a type without
   * a layout throws. Only a field of no type is refused; type, array flag and name
   * are copied, and the field counts as initialised exactly when it has initial values.
   */
  function FlashFieldOf(f: Field): (r: Result<FlashStaticField>)
    ensures r.Err? <==> f.ftype.kind == VOID
    ensures r.Ok? ==> r.value.ftype == f.ftype && r.value.isArray == f.ftype.isArray && r.value.name == f.name &&
                      (r.value.isInit <==> |f.initValues| > 0) && AllBytes(r.value.values)
    ensures r.Ok? && f.initValues == [] && f.ftype.isArray ==> r.value.values == []
    ensures r.Ok? && f.initValues == [] && !f.ftype.isArray ==>
              |r.value.values| == SF.ScalarSize(WireKind(f.ftype.kind)) > 0 &&
              forall j :: 0 <= j < |r.value.values| ==> r.value.values[j] == 0
  {
    var k := f.ftype.kind;
    if k == VOID then Err("Field type error")
    else
      var isInit := f.initValues != [];
      var values := if isInit then SF.InitBytes(WireKind(k), f.initValues)
                    else if f.ftype.isArray then []
                    else Zeros(SF.ScalarSize(WireKind(k)));
      Ok(FlashStaticField(f.ftype, f.ftype.isArray, isInit, f.name, values))
  }

  /** The constructor's loop: each initial value appended in turn. */
  method NewFlashStaticField(f: Field) returns (r: Result<FlashStaticField>)
    ensures r == FlashFieldOf(f)
  {
    var k := f.ftype.kind;
    if k == VOID {
      return Err("Field type error");
    }
    var isInit := f.initValues != [];
    var values: seq<int> := [];
    if isInit {
      var i := 0;
      while i < |f.initValues|
        invariant 0 <= i <= |f.initValues| && values == SF.InitBytes(WireKind(k), f.initValues[..i])
      {
        assert f.initValues[..i + 1][..i] == f.initValues[..i];
        values := values + SF.ValueBytes(WireKind(k), f.initValues[i]);
        i := i + 1;
      }
      assert f.initValues[..i] == f.initValues;
    } else if !f.ftype.isArray {
      var i := 0;
      while i < SF.ScalarSize(WireKind(k))
        invariant 0 <= i <= SF.ScalarSize(WireKind(k)) && values == Zeros(i)
      {
        values := values + [0];
        i := i + 1;
      }
    }
    r := Ok(FlashStaticField(f.ftype, f.ftype.isArray, isInit, f.name, values));
  }

  /** The slot width of each kind of field on the card. */
  lemma WireWidth(k: Kind)
    requires k != VOID
    ensures SF.ScalarSize(WireKind(k)) == (match k case BYTE => 1 case BOOLEAN => 1 case SHORT => 2 case REFERENCE => 2 case _ => 4)
  {
  }

  /**
   * An initialised field takes one slot of its kind's width (`WireWidth`) per initial
   * value, and value `i` reads back from its own slot.
   */
  lemma FlashFieldInitValues(f: Field, i: int)
    requires f.ftype.kind != VOID && 0 <= i < |f.initValues| && SF.Fits(WireKind(f.ftype.kind), f.initValues[i])
    ensures |FlashFieldOf(f).value.values| == |f.initValues| * SF.ScalarSize(WireKind(f.ftype.kind))
    ensures SF.SliceHolds(FlashFieldOf(f).value.values, WireKind(f.ftype.kind), i, f.initValues[i])
  {
    var k := WireKind(f.ftype.kind);
    assert FlashFieldOf(f).value.values == SF.InitBytes(k, f.initValues);
    SF.InitBytesDecode(k, f.initValues, i);
  }

  // ---------------------------------------------------------------- the statics of a package

  /** The name a row's single cell would clash with: two neighbouring cells of one row. */
  predicate RowClash(image: seq<Cell<Field>>)
  {
    |image| > 1 && image[1].row == image[0].row
  }

  /**
   * The rows of the static field image in iteration order, one flash static per row;
   * a row holding more than one cell throws, and so does a field of no type.
   */
  function FlashFields(image: seq<Cell<Field>>): Result<seq<FlashStaticField>>
    decreases |image|
  {
    if image == [] then Ok([])
    else if RowClash(image) then Err("There are more than one field with the same name!")
    else
      var s :- FlashFieldOf(image[0].value);
      var rest :- FlashFields(image[1..]);
      Ok([s] + rest)
  }

  /**
   * The statics are built when no two cells share a row and every field has a type;
   * then there is one per cell, in the image's order.
   */
  lemma {:induction false} FlashFieldsMeaning(image: seq<Cell<Field>>)
    ensures FlashFields(image).Ok? <==>
              !SharedRow(image) && forall i :: 0 <= i < |image| ==> image[i].value.ftype.kind != VOID
    ensures FlashFields(image).Ok? ==>
              |FlashFields(image).value| == |image| &&
              forall i :: 0 <= i < |image| ==> FlashFields(image).value[i] == FlashFieldOf(image[i].value).value
    decreases |image|
  {
    if image != [] {
      var tail := image[1..];
      FlashFieldsMeaning(tail);
      assert forall i :: 1 <= i < |image| ==> image[i] == tail[i - 1];
      if SharedRow(tail) {
        var j :| 0 <= j < |tail| - 1 && tail[j].row == tail[j + 1].row;
        assert image[j + 1].row == image[j + 2].row;
      }
      if SharedRow(image) && !RowClash(image) {
        var j :| 0 <= j < |image| - 1 && image[j].row == image[j + 1].row;
        assert tail[j - 1].row == tail[j].row;
      }
    }
  }

  /**
   * `fieldsName`: each name mapped to its position in the list, a later field of the
   * same name replacing an earlier one.
   */
  function FieldIndex(statics: seq<FlashStaticField>): (r: map<string, int>)
  {
    if statics == [] then map[]
    else
      var n := |statics| - 1;
      FieldIndex(statics[..n])[statics[n].name := n]
  }

  /**
   * Exactly the names of the statics are indexed, each by the last position holding
   * it; so with distinct names every static is found at its own position.
   */
  lemma {:induction false} FieldIndexMeaning(statics: seq<FlashStaticField>)
    ensures forall name :: name in FieldIndex(statics) <==> exists i :: 0 <= i < |statics| && statics[i].name == name
    ensures forall name :: name in FieldIndex(statics) ==> LastNamed(statics, name, FieldIndex(statics)[name])
    decreases |statics|
  {
    if statics != [] {
      var n := |statics| - 1;
      var init := statics[..n];
      FieldIndexMeaning(init);
      assert forall j :: 0 <= j < n ==> init[j] == statics[j];
      forall name | name in FieldIndex(init) && name != statics[n].name
        ensures LastNamed(statics, name, FieldIndex(init)[name])
      {
        LastNamedSnoc(init, statics[n], name, FieldIndex(init)[name]);
        assert init + [statics[n]] == statics;
      }
    }
  }

  /** Static `i` is the last one named `name`. */
  predicate LastNamed(statics: seq<FlashStaticField>, name: string, i: int)
  {
    0 <= i < |statics| && statics[i].name == name && forall j :: i < j < |statics| ==> statics[j].name != name
  }

  lemma LastNamedSnoc(statics: seq<FlashStaticField>, s: FlashStaticField, name: string, i: int)
    requires LastNamed(statics, name, i) && s.name != name
    ensures LastNamed(statics + [s], name, i)
  {
  }

  /** With distinct names the index is dense: static `i` is indexed by `i`. */
  lemma FieldIndexDense(statics: seq<FlashStaticField>, i: int)
    requires forall a, b :: 0 <= a < b < |statics| ==> statics[a].name != statics[b].name
    requires 0 <= i < |statics|
    ensures statics[i].name in FieldIndex(statics) && FieldIndex(statics)[statics[i].name] == i
  {
    FieldIndexMeaning(statics);
  }

  /** The statics already collected in front of the outcome for the remaining rows. */
  function Prepend(done: seq<FlashStaticField>, r: Result<seq<FlashStaticField>>): Result<seq<FlashStaticField>>
  {
    if r.Ok? then Ok(done + r.value) else r
  }

  /** One row taken off the front: its static goes in front of the rest. */
  lemma FlashFieldsCons(done: seq<FlashStaticField>, image: seq<Cell<Field>>, s: FlashStaticField)
    requires image != [] && !RowClash(image) && FlashFieldOf(image[0].value) == Ok(s)
    ensures Prepend(done, FlashFields(image)) == Prepend(done + [s], FlashFields(image[1..]))
  {
    if FlashFields(image[1..]).Ok? {
      assert done + ([s] + FlashFields(image[1..]).value) == done + [s] + FlashFields(image[1..]).value;
    }
  }

  /** Row `i` of the image taken into the statics and the index. */
  lemma CollectStep(image: seq<Cell<Field>>, i: int, statics: seq<FlashStaticField>, s: FlashStaticField)
    requires 0 <= i < |image| && |statics| == i
    requires !RowClash(image[i..]) && FlashFieldOf(image[i].value) == Ok(s)
    ensures Prepend(statics, FlashFields(image[i..])) == Prepend(statics + [s], FlashFields(image[i + 1..]))
    ensures FieldIndex(statics + [s]) == FieldIndex(statics)[s.name := i]
  {
    FlashFieldsCons(statics, image[i..], s);
    assert image[i + 1..] == image[i..][1..];
    assert (statics + [s])[..i] == statics;
  }

  /** A clash or a field of no type at row `i` is the failure of the whole image. */
  lemma CollectStops(image: seq<Cell<Field>>, i: int, statics: seq<FlashStaticField>)
    requires 0 <= i < |image| && FlashFields(image) == Prepend(statics, FlashFields(image[i..]))
    ensures RowClash(image[i..]) ==> FlashFields(image) == Err("There are more than one field with the same name!")
    ensures !RowClash(image[i..]) && FlashFieldOf(image[i].value).Err? ==>
              FlashFields(image) == Err(FlashFieldOf(image[i].value).message)
  {
  }

  /** The statics and index `CollectStatics` yields, or the failure of the rows. */
  function Collected(image: seq<Cell<Field>>): Result<(seq<FlashStaticField>, map<string, int>)>
  {
    var statics :- FlashFields(image);
    Ok((statics, FieldIndex(statics)))
  }

  /** The statics of the rows before `i` are `statics`, and the image's outcome is theirs before the rest. */
  predicate Pending(image: seq<Cell<Field>>, i: int, statics: seq<FlashStaticField>)
    requires 0 <= i <= |image|
  {
    |statics| == i && FlashFields(image) == Prepend(statics, FlashFields(image[i..]))
  }

  /**
   * The loop that fills a package's list of statics and its `fieldsName` map, one row
   * of the image at a time.
   */
  method CollectStatics(image: seq<Cell<Field>>) returns (r: Result<(seq<FlashStaticField>, map<string, int>)>)
    ensures r == Collected(image)
  {
    var statics: seq<FlashStaticField> := [];
    var names: map<string, int> := map[];
    var i := 0;
    PendingStart(image);
    while i < |image|
      invariant 0 <= i <= |image| && Pending(image, i, statics) && names == FieldIndex(statics)
    {
      var s := CollectRow(image, i, statics);
      if s.Err? {
        return Err(s.message);
      }
      names := names[s.value.name := i];
      statics := statics + [s.value];
      i := i + 1;
    }
    PendingEnd(image, statics);
    r := Ok((statics, names));
  }

  /** Before the loop nothing is collected. */
  lemma PendingStart(image: seq<Cell<Field>>)
    ensures Pending(image, 0, [])
  {
    assert image[0..] == image;
    if FlashFields(image).Ok? {
      assert [] + FlashFields(image).value == FlashFields(image).value;
    }
  }

  /** After the loop every row is collected. */
  lemma PendingEnd(image: seq<Cell<Field>>, statics: seq<FlashStaticField>)
    requires Pending(image, |image|, statics)
    ensures FlashFields(image) == Ok(statics)
  {
    assert FlashFields(image[|image|..]) == Ok([]) && statics + [] == statics;
  }

  /** The body of the loop of `CollectStatics`: the static of row `i`, or the failure of the image. */
  method CollectRow(image: seq<Cell<Field>>, i: int, ghost statics: seq<FlashStaticField>)
    returns (s: Result<FlashStaticField>)
    requires 0 <= i < |image| && Pending(image, i, statics)
    ensures s.Err? ==> FlashFields(image) == Err(s.message)
    ensures s.Ok? ==> Pending(image, i + 1, statics + [s.value]) &&
                      FieldIndex(statics + [s.value]) == FieldIndex(statics)[s.value.name := i]
  {
    CollectStops(image, i, statics);
    if RowClash(image[i..]) {
      return Err("There are more than one field with the same name!");
    }
    s := NewFlashStaticField(image[i].value);
    if s.Ok? {
      CollectStep(image, i, statics, s.value);
    }
  }

  // ---------------------------------------------------------------- renumbering the constant pool

  predicate IsInternalStatic(e: CP.CPInfo)
  {
    e.StaticFieldEntry? && e.staticField.InternalStaticField?
  }

  /** An internal static field reference takes the index of its name; every other entry is kept. */
  function RenumberEntry(e: CP.CPInfo, index: map<string, int>): Result<CP.CPInfo>
  {
    if !IsInternalStatic(e) then Ok(e)
    else if e.name in index then Ok(CP.StaticFieldEntry(CP.InternalStaticField(ToShort(index[e.name])), e.name))
    else Err("NullPointerException")
  }

  /** The pool with its entries renumbered in order; the first unknown name throws. */
  function RenumberPool(cp: seq<CP.CPInfo>, index: map<string, int>): Result<seq<CP.CPInfo>>
  {
    if cp == [] then Ok([])
    else
      var init :- RenumberPool(cp[..|cp| - 1], index);
      var e :- RenumberEntry(cp[|cp| - 1], index);
      Ok(init + [e])
  }

  /**
   * Renumbering succeeds when every internal static reference names an indexed field;
   * it then points each of them at that index and leaves every other entry, external
   * static references included, as it was.
   */
  lemma {:induction false} RenumberPoolMeaning(cp: seq<CP.CPInfo>, index: map<string, int>)
    ensures RenumberPool(cp, index).Ok? <==>
              forall i :: 0 <= i < |cp| && IsInternalStatic(cp[i]) ==> cp[i].name in index
    ensures RenumberPool(cp, index).Ok? ==>
              var r := RenumberPool(cp, index).value;
              |r| == |cp| &&
              forall i :: 0 <= i < |cp| ==>
                r[i] == if IsInternalStatic(cp[i])
                        then CP.StaticFieldEntry(CP.InternalStaticField(ToShort(index[cp[i].name])), cp[i].name)
                        else cp[i]
  {
    if cp != [] {
      var n := |cp| - 1;
      RenumberPoolMeaning(cp[..n], index);
      assert forall i :: 0 <= i < n ==> cp[..n][i] == cp[i];
    }
  }

  /** The loop over the constant pool, rewriting internal static field references. */
  method RenumberConstantPool(cp: seq<CP.CPInfo>, index: map<string, int>) returns (r: Result<seq<CP.CPInfo>>)
    ensures r == RenumberPool(cp, index)
  {
    var out: seq<CP.CPInfo> := [];
    var i := 0;
    while i < |cp|
      invariant 0 <= i <= |cp| && RenumberPool(cp[..i], index) == Ok(out)
    {
      assert cp[..i + 1][..i] == cp[..i];
      var e := cp[i];
      if IsInternalStatic(e) {
        if e.name !in index {
          RenumberPoolErr(cp, index, i + 1);
          return Err("NullPointerException");
        }
        e := CP.StaticFieldEntry(CP.InternalStaticField(ToShort(index[e.name])), e.name);
      }
      out := out + [e];
      i := i + 1;
    }
    assert cp[..i] == cp;
    r := Ok(out);
  }

  /** A failure on a prefix of the pool is the failure of the whole pool. */
  lemma {:induction false} RenumberPoolErr(cp: seq<CP.CPInfo>, index: map<string, int>, n: int)
    requires 0 <= n <= |cp| && RenumberPool(cp[..n], index).Err?
    ensures RenumberPool(cp, index) == RenumberPool(cp[..n], index)
    decreases |cp| - n
  {
    if n < |cp| {
      assert cp[..n + 1][..n] == cp[..n];
      RenumberPoolErr(cp, index, n + 1);
    } else {
      assert cp[..n] == cp;
    }
  }

  // ---------------------------------------------------------------- renumbering the exports

  /**
   * The first `n` static field offsets of an exported class, each replaced by the index
   * of the field listed beside it; a missing field or an unknown name throws.
   */
  function RenumberOffsets(c: Ex.ClassExport, index: map<string, int>, n: int): Result<seq<int>>
    requires 0 <= n <= |c.staticFieldOffsets|
  {
    if n == 0 then Ok([])
    else
      var init :- RenumberOffsets(c, index, n - 1);
      if n - 1 >= |c.staticFields| then Err("IndexOutOfBoundsException")
      else if c.staticFields[n - 1].name !in index then Err("NullPointerException")
      else Ok(init + [ToShort(index[c.staticFields[n - 1].name])])
  }

  /** An exported class with its static field offsets renumbered; everything else is kept. */
  function RenumberClass(c: Ex.ClassExport, index: map<string, int>): Result<Ex.ClassExport>
  {
    var offsets :- RenumberOffsets(c, index, |c.staticFieldOffsets|);
    Ok(c.(staticFieldOffsets := offsets))
  }

  /** Offset `j` is renumbered when every offset up to it has a listed, indexed field. */
  predicate OffsetsKnown(c: Ex.ClassExport, index: map<string, int>, n: int)
  {
    forall j :: 0 <= j < n ==> j < |c.staticFields| && c.staticFields[j].name in index
  }

  /**
   * `r` is class `c` with offset `j` replaced by the index of the field listed at `j`,
   * for every `j`, and nothing else changed.
   */
  predicate Renumbered(c: Ex.ClassExport, index: map<string, int>, r: Ex.ClassExport)
  {
    && r == c.(staticFieldOffsets := r.staticFieldOffsets)
    && |r.staticFieldOffsets| == |c.staticFieldOffsets|
    && forall j :: 0 <= j < |c.staticFieldOffsets| ==>
         j < |c.staticFields| && c.staticFields[j].name in index &&
         r.staticFieldOffsets[j] == ToShort(index[c.staticFields[j].name])
  }

  /**
   * The offsets are renumbered when every one has a field beside it whose name is
   * indexed; offset `j` then becomes the index of field `j`.
   */
  lemma {:induction false} RenumberOffsetsMeaning(c: Ex.ClassExport, index: map<string, int>, n: int)
    requires 0 <= n <= |c.staticFieldOffsets|
    ensures RenumberOffsets(c, index, n).Ok? <==> OffsetsKnown(c, index, n)
    ensures RenumberOffsets(c, index, n).Ok? ==>
              var r := RenumberOffsets(c, index, n).value;
              |r| == n && forall j :: 0 <= j < n ==> r[j] == ToShort(index[c.staticFields[j].name])
  {
    if n > 0 {
      RenumberOffsetsMeaning(c, index, n - 1);
    }
  }

  /** The loop over one class's offsets, overwriting them in place. */
  method RenumberClassExport(c: Ex.ClassExport, index: map<string, int>) returns (r: Result<Ex.ClassExport>)
    ensures r == RenumberClass(c, index)
  {
    var offsets := c.staticFieldOffsets;
    var idx := 0;
    while idx < |offsets|
      invariant 0 <= idx <= |offsets| == |c.staticFieldOffsets|
      invariant RenumberOffsets(c, index, idx) == Ok(offsets[..idx])
      invariant offsets[idx..] == c.staticFieldOffsets[idx..]
    {
      if idx >= |c.staticFields| {
        RenumberOffsetsErr(c, index, idx + 1);
        return Err("IndexOutOfBoundsException");
      }
      var field := c.staticFields[idx];
      if field.name !in index {
        RenumberOffsetsErr(c, index, idx + 1);
        return Err("NullPointerException");
      }
      offsets := offsets[idx := ToShort(index[field.name])];
      assert offsets[..idx + 1] == offsets[..idx] + [offsets[idx]];
      idx := idx + 1;
    }
    assert offsets[..idx] == offsets;
    r := Ok(c.(staticFieldOffsets := offsets));
  }

  /** A failure on the first `n` offsets is the failure of the whole class. */
  lemma {:induction false} RenumberOffsetsErr(c: Ex.ClassExport, index: map<string, int>, n: int)
    requires 0 <= n <= |c.staticFieldOffsets| && RenumberOffsets(c, index, n).Err?
    ensures RenumberOffsets(c, index, |c.staticFieldOffsets|) == RenumberOffsets(c, index, n)
    decreases |c.staticFieldOffsets| - n
  {
    if n < |c.staticFieldOffsets| {
      RenumberOffsetsErr(c, index, n + 1);
    }
  }

  /** Every exported class renumbered in order; the first failure throws. */
  function RenumberExports(es: seq<Ex.ClassExport>, index: map<string, int>): Result<seq<Ex.ClassExport>>
  {
    if es == [] then Ok([])
    else
      var init :- RenumberExports(es[..|es| - 1], index);
      var c :- RenumberClass(es[|es| - 1], index);
      Ok(init + [c])
  }

  /**
   * The export component renumbered, as written: an absent component is dereferenced
   * all the same, so a package that exports nothing throws.
   */
  function UpdateExportsAsWritten(exports: Option<seq<Ex.ClassExport>>, index: map<string, int>)
    : Result<Option<seq<Ex.ClassExport>>>
  {
    if exports.None? then Err("NullPointerException")
    else
      var es :- RenumberExports(exports.value, index);
      Ok(Some(es))
  }

  /** A package without an export component cannot be put in flash as written. */
  lemma ExportsAsWrittenFails(index: map<string, int>)
    ensures UpdateExportsAsWritten(None, index).Err?
  {
  }

  /** The export component renumbered when there is one; an absent component stays absent. */
  function UpdateExports(exports: Option<seq<Ex.ClassExport>>, index: map<string, int>)
    : Result<Option<seq<Ex.ClassExport>>>
  {
    if exports.None? then Ok(None)
    else
      var es :- RenumberExports(exports.value, index);
      Ok(Some(es))
  }

  /**
   * The corrected update differs from the written one only for an absent component;
   * it renumbers each class when all their offsets are known and keeps every other
   * part of each class.
   */
  lemma {:induction false} UpdateExportsMeaning(exports: Option<seq<Ex.ClassExport>>, index: map<string, int>)
    ensures exports.Some? ==> UpdateExports(exports, index) == UpdateExportsAsWritten(exports, index)
    ensures exports.None? ==> UpdateExports(exports, index) == Ok(None)
    ensures exports.Some? ==>
              (UpdateExports(exports, index).Ok? <==>
                 forall i :: 0 <= i < |exports.value| ==>
                   OffsetsKnown(exports.value[i], index, |exports.value[i].staticFieldOffsets|))
    ensures exports.Some? && UpdateExports(exports, index).Ok? ==>
              var es, rs := exports.value, UpdateExports(exports, index).value.value;
              |rs| == |es| && forall i :: 0 <= i < |es| ==> Renumbered(es[i], index, rs[i])
  {
    if exports.Some? {
      RenumberExportsMeaning(exports.value, index);
    }
  }

  lemma {:induction false} RenumberExportsMeaning(es: seq<Ex.ClassExport>, index: map<string, int>)
    ensures RenumberExports(es, index).Ok? <==>
              forall i :: 0 <= i < |es| ==> OffsetsKnown(es[i], index, |es[i].staticFieldOffsets|)
    ensures RenumberExports(es, index).Ok? ==>
              var rs := RenumberExports(es, index).value;
              |rs| == |es| && forall i :: 0 <= i < |es| ==> Renumbered(es[i], index, rs[i])
  {
    if es != [] {
      var n := |es| - 1;
      RenumberExportsMeaning(es[..n], index);
      assert forall i :: 0 <= i < n ==> es[..n][i] == es[i];
      RenumberOffsetsMeaning(es[n], index, |es[n].staticFieldOffsets|);
    }
  }

  /** The loop over the exported classes. */
  method RenumberExportComponent(es: seq<Ex.ClassExport>, index: map<string, int>)
    returns (r: Result<seq<Ex.ClassExport>>)
    ensures r == RenumberExports(es, index)
  {
    var out: seq<Ex.ClassExport> := [];
    var i := 0;
    while i < |es|
      invariant 0 <= i <= |es| && RenumberExports(es[..i], index) == Ok(out)
    {
      assert es[..i + 1][..i] == es[..i];
      var c := RenumberClassExport(es[i], index);
      if c.Err? {
        RenumberExportsErr(es, index, i + 1);
        return Err(c.message);
      }
      out := out + [c.value];
      i := i + 1;
    }
    assert es[..i] == es;
    r := Ok(out);
  }

  /** A failure on a prefix of the classes is the failure of them all. */
  lemma {:induction false} RenumberExportsErr(es: seq<Ex.ClassExport>, index: map<string, int>, n: int)
    requires 0 <= n <= |es| && RenumberExports(es[..n], index).Err?
    ensures RenumberExports(es, index) == RenumberExports(es[..n], index)
    decreases |es| - n
  {
    if n < |es| {
      assert es[..n + 1][..n] == es[..n];
      RenumberExportsErr(es, index, n + 1);
    } else {
      assert es[..n] == es;
    }
  }

  // ---------------------------------------------------------------- packages

  /**
   * A CAP file as the filesystem rewrites it: the static field component, the constant
   * pool, the export component (absent when the package exports nothing) and the
   * directory; the components it leaves alone are carried as their bytes.
   */
  datatype CapFile = CapFile(staticField: Option<SF.StaticFieldComponent>, constantPool: seq<CP.CPInfo>,
                             exports: Option<seq<Ex.ClassExport>>, directory: C.DirectoryComponent,
                             otherComponents: seq<seq<int>>)

  /** A package handed to the filesystem: its name, its package info and its CAP file. */
  datatype PackageEntry = PackageEntry(name: string, info: C.PackageInfo, cap: CapFile)

  /** A package in flash: its name, AID, version and the bytes of its CAP file. */
  datatype FlashPackage = FlashPackage(name: string, aid: seq<int>, majorVersion: int, minorVersion: int,
                                       cap: seq<int>)

  /** What one package contributes: its statics and its flash package. */
  datatype Generated = Generated(statics: seq<FlashStaticField>, package: FlashPackage)

  /** `setStaticFieldComponentSize((short) 0)`: the directory's size for the static field component. */
  function WithoutStaticSize(d: C.DirectoryComponent): C.DirectoryComponent
  {
    var sizes := d.componentSizes;
    if |sizes| < C.TAG_STATIC_FIELD then d
    else d.(componentSizes := sizes[C.TAG_STATIC_FIELD - 1 := 0])
  }

  /** The copy of the CAP file that goes to flash: renumbered, without its static field component. */
  function FlashCap(cap: CapFile, cp: seq<CP.CPInfo>, exports: Option<seq<Ex.ClassExport>>): CapFile
  {
    cap.(staticField := None, constantPool := cp, exports := exports, directory := WithoutStaticSize(cap.directory))
  }

  /**
   * One package of `generating`: its statics from the image rows, the clone of its CAP
   * file renumbered against them and stripped of its static field component, and
   * that clone written out by `write`.
   */
  function GeneratePackage(entry: PackageEntry, write: CapFile -> seq<int>): Result<Generated>
  {
    if entry.cap.staticField.None? then Err("NullPointerException")
    else
      var statics :- FlashFields(entry.cap.staticField.value.staticFieldImage);
      var index := FieldIndex(statics);
      var cp :- RenumberPool(entry.cap.constantPool, index);
      var exports :- UpdateExports(entry.cap.exports, index);
      var flashed := FlashCap(entry.cap, cp, exports);
      Ok(Generated(statics, FlashPackage(entry.name, entry.info.aid, entry.info.majorVersion,
                                         entry.info.minorVersion, write(flashed))))
  }

  /**
   * A generated package carries the package's name, AID and version, and the bytes of
   * a CAP file that has no static field component, a zero static size in its
   * directory, the other components unchanged, and every internal static field
   * reference pointing at the position of a flash static of that name.
   */
  lemma GeneratePackageMeaning(entry: PackageEntry, write: CapFile -> seq<int>)
    requires GeneratePackage(entry, write).Ok?
    ensures var g := GeneratePackage(entry, write).value;
            exists cap: CapFile ::
              && g.package == FlashPackage(entry.name, entry.info.aid, entry.info.majorVersion,
                                           entry.info.minorVersion, write(cap))
              && cap.staticField.None?
              && cap.otherComponents == entry.cap.otherComponents
              && |cap.constantPool| == |entry.cap.constantPool|
              && |cap.directory.componentSizes| == |entry.cap.directory.componentSizes|
              && (|entry.cap.directory.componentSizes| >= C.TAG_STATIC_FIELD ==>
                    cap.directory.componentSizes[C.TAG_STATIC_FIELD - 1] == 0)
              && PointsAtStatics(entry.cap.constantPool, cap.constantPool, g.statics)
  {
    var statics := FlashFields(entry.cap.staticField.value.staticFieldImage).value;
    var index := FieldIndex(statics);
    var cp := RenumberPool(entry.cap.constantPool, index).value;
    var exports := UpdateExports(entry.cap.exports, index).value;
    var cap := FlashCap(entry.cap, cp, exports);
    RenumberedPoints(entry.cap.constantPool, statics);
    assert cap.constantPool == cp;
  }

  /**
   * Each internal static field reference of `cp` is the one of `orig` pointed at the
   * position of a flash static of its name; every other entry is that of `orig`.
   */
  predicate PointsAtStatics(orig: seq<CP.CPInfo>, cp: seq<CP.CPInfo>, statics: seq<FlashStaticField>)
  {
    |cp| == |orig| &&
    forall i :: 0 <= i < |cp| ==>
      if IsInternalStatic(orig[i]) then
        IsInternalStatic(cp[i]) && cp[i].name == orig[i].name &&
        exists j :: 0 <= j < |statics| && statics[j].name == cp[i].name && cp[i].staticField.offset == ToShort(j)
      else cp[i] == orig[i]
  }

  /** A pool renumbered against the index of the statics points each reference at its static. */
  lemma RenumberedPoints(orig: seq<CP.CPInfo>, statics: seq<FlashStaticField>)
    requires RenumberPool(orig, FieldIndex(statics)).Ok?
    ensures PointsAtStatics(orig, RenumberPool(orig, FieldIndex(statics)).value, statics)
  {
    var index := FieldIndex(statics);
    var cp := RenumberPool(orig, index).value;
    RenumberPoolMeaning(orig, index);
    FieldIndexMeaning(statics);
    forall i | 0 <= i < |cp| && IsInternalStatic(orig[i])
      ensures exists j :: 0 <= j < |statics| && statics[j].name == cp[i].name && cp[i].staticField.offset == ToShort(j)
    {
      var j := index[orig[i].name];
      assert statics[j].name == cp[i].name;
    }
  }

  /** The packages `0 .. n-1` one after the other; the first failure stops `generating`. */
  function GenerateAll(entries: seq<PackageEntry>, write: CapFile -> seq<int>): Result<seq<Generated>>
  {
    if entries == [] then Ok([])
    else
      var init :- GenerateAll(entries[..|entries| - 1], write);
      var g :- GeneratePackage(entries[|entries| - 1], write);
      Ok(init + [g])
  }

  /** A failure on a prefix of the packages is the failure of them all. */
  lemma {:induction false} GenerateAllErr(entries: seq<PackageEntry>, write: CapFile -> seq<int>, n: int)
    requires 0 <= n <= |entries| && GenerateAll(entries[..n], write).Err?
    ensures GenerateAll(entries, write) == GenerateAll(entries[..n], write)
    decreases |entries| - n
  {
    if n < |entries| {
      assert entries[..n + 1][..n] == entries[..n];
      GenerateAllErr(entries, write, n + 1);
    } else {
      assert entries[..n] == entries;
    }
  }

  /** One more package generated. */
  lemma GenerateAllStep(entries: seq<PackageEntry>, write: CapFile -> seq<int>, n: int, gs: seq<Generated>)
    requires 0 <= n < |entries| && GenerateAll(entries[..n], write) == Ok(gs)
    ensures GeneratePackage(entries[n], write).Err? ==>
              GenerateAll(entries[..n + 1], write) == Err(GeneratePackage(entries[n], write).message)
    ensures GeneratePackage(entries[n], write).Ok? ==>
              GenerateAll(entries[..n + 1], write) == Ok(gs + [GeneratePackage(entries[n], write).value])
  {
    assert entries[..n + 1][..n] == entries[..n];
    assert entries[..n + 1][n] == entries[n];
  }

  /** A failing package is the failure of `generating`. */
  lemma GenerateAllFails(entries: seq<PackageEntry>, write: CapFile -> seq<int>, n: int, gs: seq<Generated>)
    requires 0 <= n < |entries| && GenerateAll(entries[..n], write) == Ok(gs)
    requires GeneratePackage(entries[n], write).Err?
    ensures GenerateAll(entries, write) == Err(GeneratePackage(entries[n], write).message)
  {
    GenerateAllStep(entries, write, n, gs);
    GenerateAllErr(entries, write, n + 1);
  }

  /** A succeeding package extends the generated list and the filesystem's lists. */
  lemma GenerateAllNext(entries: seq<PackageEntry>, write: CapFile -> seq<int>, n: int, gs: seq<Generated>,
                        fps: seq<FlashPackage>, m: map<int, seq<FlashStaticField>>)
    requires 0 <= n < |entries| && GenerateAll(entries[..n], write) == Ok(gs) && |gs| == n
    requires GeneratePackage(entries[n], write).Ok?
    ensures var g := GeneratePackage(entries[n], write).value;
            && GenerateAll(entries[..n + 1], write) == Ok(gs + [g])
            && fps + Packages(gs + [g]) == fps + Packages(gs) + [g.package]
            && StaticsAfter(m, gs + [g]) == AddStatics(StaticsAfter(m, gs), n, g.statics)
  {
    GenerateAllStep(entries, write, n, gs);
    AfterStep(fps, m, gs, GeneratePackage(entries[n], write).value);
  }

  /**
   * After `n` packages of `generating`: they are generated as `gs`, and the lists have
   * grown from `fps0` and `m0` by their flash packages and statics.
   */
  ghost predicate Progress(entries: seq<PackageEntry>, write: CapFile -> seq<int>, n: int, gs: seq<Generated>,
                           fps0: seq<FlashPackage>, m0: map<int, seq<FlashStaticField>>,
                           fps: seq<FlashPackage>, m: map<int, seq<FlashStaticField>>)
    requires 0 <= n <= |entries|
  {
    |gs| == n && GenerateAll(entries[..n], write) == Ok(gs) &&
    fps == fps0 + Packages(gs) && m == StaticsAfter(m0, gs)
  }

  lemma ProgressFails(entries: seq<PackageEntry>, write: CapFile -> seq<int>, n: int, gs: seq<Generated>,
                      fps0: seq<FlashPackage>, m0: map<int, seq<FlashStaticField>>,
                      fps: seq<FlashPackage>, m: map<int, seq<FlashStaticField>>)
    requires 0 <= n < |entries| && Progress(entries, write, n, gs, fps0, m0, fps, m)
    requires GeneratePackage(entries[n], write).Err?
    ensures GenerateAll(entries, write) == Err(GeneratePackage(entries[n], write).message)
  {
    GenerateAllFails(entries, write, n, gs);
  }

  lemma ProgressNext(entries: seq<PackageEntry>, write: CapFile -> seq<int>, n: int, gs: seq<Generated>,
                     fps0: seq<FlashPackage>, m0: map<int, seq<FlashStaticField>>,
                     fps: seq<FlashPackage>, m: map<int, seq<FlashStaticField>>)
    requires 0 <= n < |entries| && Progress(entries, write, n, gs, fps0, m0, fps, m)
    requires GeneratePackage(entries[n], write).Ok?
    ensures var g := GeneratePackage(entries[n], write).value;
            Progress(entries, write, n + 1, gs + [g], fps0, m0, fps + [g.package], AddStatics(m, n, g.statics))
  {
    GenerateAllNext(entries, write, n, gs, fps0, m0);
  }

  lemma ProgressEnd(entries: seq<PackageEntry>, write: CapFile -> seq<int>, gs: seq<Generated>,
                    fps0: seq<FlashPackage>, m0: map<int, seq<FlashStaticField>>,
                    fps: seq<FlashPackage>, m: map<int, seq<FlashStaticField>>)
    requires Progress(entries, write, |entries|, gs, fps0, m0, fps, m)
    ensures GenerateAll(entries, write) == Ok(gs)
    ensures fps == fps0 + Packages(gs) && m == StaticsAfter(m0, gs)
  {
    assert entries[..|entries|] == entries;
  }

  /** The flash packages of the generated packages, in order. */
  function Packages(gs: seq<Generated>): (r: seq<FlashPackage>)
    ensures |r| == |gs|
  {
    if gs == [] then [] else Packages(gs[..|gs| - 1]) + [gs[|gs| - 1].package]
  }

  /**
   * `computeIfAbsent(p)` and `add` for every row of package `p`: its statics appended
   * to those already kept for `p`; a package without rows gets no entry.
   */
  function AddStatics(m: map<int, seq<FlashStaticField>>, p: int, statics: seq<FlashStaticField>)
    : map<int, seq<FlashStaticField>>
  {
    if statics == [] then m else m[p := (if p in m then m[p] else []) + statics]
  }

  /** The statics of the generated packages added to `m`, package `i` under key `i`. */
  function StaticsAfter(m: map<int, seq<FlashStaticField>>, gs: seq<Generated>): map<int, seq<FlashStaticField>>
  {
    if gs == [] then m
    else AddStatics(StaticsAfter(m, gs[..|gs| - 1]), |gs| - 1, gs[|gs| - 1].statics)
  }

  /**
   * Generated from an empty filesystem, package `p` has a list of statics exactly
   * when it has at least one, and then it is that package's list.
   */
  lemma {:induction false} StaticsAfterMeaning(gs: seq<Generated>, p: int)
    ensures p in StaticsAfter(map[], gs) <==> 0 <= p < |gs| && gs[p].statics != []
    ensures p in StaticsAfter(map[], gs) ==> StaticsAfter(map[], gs)[p] == gs[p].statics
  {
    if gs != [] {
      var n := |gs| - 1;
      StaticsAfterMeaning(gs[..n], p);
      if 0 <= p < n {
        assert gs[..n][p] == gs[p];
      }
    }
  }

  /** The filesystem's lists after one more generated package. */
  lemma AfterStep(fps: seq<FlashPackage>, m: map<int, seq<FlashStaticField>>, gs: seq<Generated>, g: Generated)
    ensures fps + Packages(gs + [g]) == fps + Packages(gs) + [g.package]
    ensures StaticsAfter(m, gs + [g]) == AddStatics(StaticsAfter(m, gs), |gs|, g.statics)
  {
    assert (gs + [g])[..|gs|] == gs;
  }

  // ---------------------------------------------------------------- the filesystem

  /** The filesystem under construction: the packages given, then their flash forms. */
  class Filesystem {
    const packages: seq<PackageEntry>
    var flashPackages: seq<FlashPackage>
    var flashStaticFields: map<int, seq<FlashStaticField>>

    constructor(packages: seq<PackageEntry>)
      ensures this.packages == packages && flashPackages == [] && flashStaticFields == map[]
    {
      this.packages := packages;
      flashPackages := [];
      flashStaticFields := map[];
    }

    /**
     * `generating`: every package in turn. When all succeed, their flash packages are
     * appended and their statics added under their positions; otherwise the first
     * failure is reported.
     */
    method Generating(write: CapFile -> seq<int>) returns (failure: Option<string>)
      modifies this`flashPackages, this`flashStaticFields
      ensures failure.None? <==> GenerateAll(packages, write).Ok?
      ensures failure.Some? ==> failure.value == GenerateAll(packages, write).message
      ensures failure.None? ==>
                flashPackages == old(flashPackages) + Packages(GenerateAll(packages, write).value) &&
                flashStaticFields == StaticsAfter(old(flashStaticFields), GenerateAll(packages, write).value)
    {
      ghost var gs: seq<Generated> := [];
      var packageNumber := 0;
      assert packages[..0] == [];
      while packageNumber < |packages|
        invariant 0 <= packageNumber <= |packages|
        invariant Progress(packages, write, packageNumber, gs, old(flashPackages), old(flashStaticFields),
                           flashPackages, flashStaticFields)
      {
        var g := GenerateOne(packages[packageNumber], write);
        if g.Err? {
          ProgressFails(packages, write, packageNumber, gs, old(flashPackages), old(flashStaticFields),
                        flashPackages, flashStaticFields);
          return Some(g.message);
        }
        ProgressNext(packages, write, packageNumber, gs, old(flashPackages), old(flashStaticFields),
                     flashPackages, flashStaticFields);
        AddPackage(packageNumber, g.value);
        gs := gs + [g.value];
        packageNumber := packageNumber + 1;
      }
      ProgressEnd(packages, write, gs, old(flashPackages), old(flashStaticFields), flashPackages, flashStaticFields);
      failure := None;
    }

    /**
     * `writeBinary` without the sector padding: the CAP blocks of every package and
     * the static blocks of those with statics, gathered package by package, then the
     * package list filled bit by bit.
     */
    method WriteBinary(withApps: bool, withStatic: bool, frame: Block -> seq<int>) returns (r: Result<(seq<int>, int)>)
      ensures r == Binary(flashPackages, flashStaticFields, withApps, withStatic, frame)
    {
      r := WriteImage(flashPackages, flashStaticFields, withApps, withStatic, frame);
    }

    /** `writeInIntelHexFile`: the image of `writeBinary`, written out as Intel HEX lines. */
    method WriteInIntelHexFile(beginAddress: int, withApps: bool, withStatic: bool, frame: Block -> seq<int>)
      returns (r: Result<(seq<string>, int)>)
      requires -0x8000_0000 <= beginAddress < 0x8000_0000 && FramesBytes(frame)
      ensures r == HexFile(flashPackages, flashStaticFields, beginAddress, withApps, withStatic, frame)
    {
      var binary := WriteBinary(withApps, withStatic, frame);
      if binary.Err? {
        return Err(binary.message);
      }
      var (data, length) := binary.value;
      BinaryBytes(flashPackages, flashStaticFields, withApps, withStatic, frame);
      var lines := IntelHex.WriteIntelHex(data, beginAddress);
      r := Ok((lines, length));
    }

    /** The end of `generating`'s loop body: package `p`'s statics kept, its flash package appended. */
    method AddPackage(p: int, g: Generated)
      modifies this`flashPackages, this`flashStaticFields
      ensures flashPackages == old(flashPackages) + [g.package]
      ensures flashStaticFields == AddStatics(old(flashStaticFields), p, g.statics)
    {
      var statics := g.statics;
      if statics != [] {
        var kept := if p in flashStaticFields then flashStaticFields[p] else [];
        flashStaticFields := flashStaticFields[p := kept + statics];
      }
      flashPackages := flashPackages + [g.package];
    }
  }

  /** The body of `generating`'s loop for one package. */
  method GenerateOne(entry: PackageEntry, write: CapFile -> seq<int>) returns (r: Result<Generated>)
    ensures r == GeneratePackage(entry, write)
  {
    if entry.cap.staticField.None? {
      return Err("NullPointerException");
    }
    var collected := CollectStatics(entry.cap.staticField.value.staticFieldImage);
    if collected.Err? {
      return Err(collected.message);
    }
    var statics, index := collected.value.0, collected.value.1;
    assert statics == FlashFields(entry.cap.staticField.value.staticFieldImage).value;
    var cp := RenumberConstantPool(entry.cap.constantPool, index);
    if cp.Err? {
      return Err(cp.message);
    }
    var exports: Option<seq<Ex.ClassExport>> := None;
    if entry.cap.exports.Some? {
      var es := RenumberExportComponent(entry.cap.exports.value, index);
      if es.Err? {
        return Err(es.message);
      }
      exports := Some(es.value);
    }
    var flashed := FlashCap(entry.cap, cp.value, exports);
    r := Ok(Generated(statics, FlashPackage(entry.name, entry.info.aid, entry.info.majorVersion,
                                            entry.info.minorVersion, write(flashed))));
  }

  // ---------------------------------------------------------------- blocks of the binary image

  /** A block of the image: its tag bytes and its payload, framed by `FlashBlock.write`. */
  datatype Block = Block(tag: seq<int>, payload: seq<int>)

  /** The type byte of a static in flash: 0 to 4 for byte, boolean, short, int and reference. */
  function TypeCode(k: Kind): (r: int)
    requires k != VOID
    ensures 0 <= r <= FIELD_TYPE_OBJECT
  {
    match k
    case BYTE => FIELD_TYPE_BYTE
    case BOOLEAN => FIELD_TYPE_BOOLEAN
    case SHORT => FIELD_TYPE_SHORT
    case INT => FIELD_TYPE_INT
    case REFERENCE => FIELD_TYPE_OBJECT
  }

  /** A Java `byte` widened to an `int`: sign-extended to 32 bits. */
  function WidenBits(x: bv8): bv32
  {
    if x < 0x80 then x as bv32 else x as bv32 | 0xFFFF_FF00
  }

  function Widen(b: int): bv32
  {
    WidenBits(ToByte(b) as bv8)
  }

  /** `(short) ((values[1] << 8) | values[0])`, the test of a short or reference for zero. */
  function ShortTest(v0: int, v1: int): bv32
  {
    ((Widen(v1) << 8) | Widen(v0)) & 0xFFFF
  }

  /** `(values[3] << 24) | (values[2] << 16) | (values[1] << 8) | values[0]`, the test of an int for zero. */
  function IntTest(v0: int, v1: int, v2: int, v3: int): bv32
  {
    (Widen(v3) << 24) | (Widen(v2) << 16) | (Widen(v1) << 8) | Widen(v0)
  }

  /** A byte's bit pattern is zero exactly when the byte is. */
  lemma ByteBitsZero(b: int)
    requires IsByte(b)
    ensures ToByte(b) as bv8 == 0 <==> b == 0
  {
    assert ToByte(b) == b;
  }

  /** The short test is zero exactly when both bytes are, whatever their signs. */
  lemma ShortTestZero(v0: int, v1: int)
    requires IsByte(v0) && IsByte(v1)
    ensures ShortTest(v0, v1) == 0 <==> v0 == 0 && v1 == 0
  {
    ByteBitsZero(v0);
    ByteBitsZero(v1);
  }

  /** The int test is zero exactly when all four bytes are, whatever their signs. */
  lemma IntTestZero(v0: int, v1: int, v2: int, v3: int)
    requires IsByte(v0) && IsByte(v1) && IsByte(v2) && IsByte(v3)
    ensures IntTest(v0, v1, v2, v3) == 0 <==> v0 == 0 && v1 == 0 && v2 == 0 && v3 == 0
  {
    ByteBitsZero(v0);
    ByteBitsZero(v1);
    ByteBitsZero(v2);
    ByteBitsZero(v3);
  }

  /**
   * Whether a scalar static holds the default value, decided as the image writer
   * reads it back; too few bytes for the type throw.
   */
  function ScalarIsZero(k: Kind, values: seq<int>): Result<bool>
    requires k != VOID && values != []
  {
    match k
    case BYTE => Ok(values[0] == 0)
    case BOOLEAN => Ok(values[0] == 0)
    case INT =>
      if |values| < 4 then Err("IndexOutOfBoundsException")
      else Ok(IntTest(values[0], values[1], values[2], values[3]) == 0)
    case SHORT =>
      if |values| < 2 then Err("IndexOutOfBoundsException")
      else Ok(ShortTest(values[0], values[1]) == 0)
    case REFERENCE =>
      if |values| < 2 then Err("IndexOutOfBoundsException")
      else Ok(ShortTest(values[0], values[1]) == 0)
  }

  /**
   * On enough bytes for its type the test does not throw, and finds the default
   * value exactly when every byte of the type is zero.
   */
  lemma ScalarIsZeroMeaning(k: Kind, values: seq<int>)
    requires k != VOID && AllBytes(values) && |values| >= SF.ScalarSize(WireKind(k)) > 0
    ensures ScalarIsZero(k, values).Ok?
    ensures ScalarIsZero(k, values).value <==> forall j :: 0 <= j < SF.ScalarSize(WireKind(k)) ==> values[j] == 0
  {
    if k == INT {
      IntTestZero(values[0], values[1], values[2], values[3]);
    } else if k == SHORT || k == REFERENCE {
      ShortTestZero(values[0], values[1]);
    }
  }

  /**
   * The block of static number `n` of package `pkg`: tag `[2, pkg, n]` and payload
   * its type byte then its values. A static with no values, or a scalar at its
   * default value, has no block; a static of no type throws.
   */
  function StaticBlockOf(pkg: int, n: int, s: FlashStaticField): Result<Option<Block>>
  {
    if s.values == [] then Ok(None)
    else if s.ftype.kind == VOID then Err("Wrong static field type;")
    else
      var tag := [FILETYPE_STATIC, ToByte(pkg), ToByte(n)];
      var code := TypeCode(s.ftype.kind);
      if s.isArray then Ok(Some(Block(tag, [code + FIELD_TYPE_ARRAY] + s.values)))
      else
        var zero :- ScalarIsZero(s.ftype.kind, s.values);
        if zero then Ok(None) else Ok(Some(Block(tag, [code] + s.values)))
  }

  /**
   * A flash static as its constructor builds it gets a block exactly when it has
   * values and is an array or a scalar with a non-zero byte; the block is tagged with
   * the package and the static's number, and carries the type byte, with the top bit
   * for an array, followed by the values.
   */
  lemma StaticBlockMeaning(pkg: int, n: int, f: Field)
    requires FlashFieldOf(f).Ok?
    ensures var s := FlashFieldOf(f).value;
            var w := SF.ScalarSize(WireKind(f.ftype.kind));
            && StaticBlockOf(pkg, n, s).Ok?
            && (StaticBlockOf(pkg, n, s).value.Some? <==>
                  s.values != [] && (s.isArray || exists j :: 0 <= j < w && s.values[j] != 0))
            && (StaticBlockOf(pkg, n, s).value.Some? ==>
                  StaticBlockOf(pkg, n, s).value.value ==
                    Block([FILETYPE_STATIC, ToByte(pkg), ToByte(n)],
                          [TypeCode(f.ftype.kind) + (if s.isArray then FIELD_TYPE_ARRAY else 0)] + s.values))
  {
    var s := FlashFieldOf(f).value;
    var k := f.ftype.kind;
    if s.values != [] && !s.isArray {
      var w := SF.ScalarSize(WireKind(k));
      if f.initValues != [] {
        SF.StrideProduct(|f.initValues|, w);
      }
      ScalarIsZeroMeaning(k, s.values);
    }
  }

  /** The blocks of a package's statics, numbered by their position in its list. */
  function StaticBytes(pkg: int, statics: seq<FlashStaticField>, frame: Block -> seq<int>): Result<seq<int>>
  {
    if statics == [] then Ok([])
    else
      var n := |statics| - 1;
      var init :- StaticBytes(pkg, statics[..n], frame);
      var b :- StaticBlockOf(pkg, n, statics[n]);
      Ok(init + if b.Some? then frame(b.value) else [])
  }

  /** The CAP blocks of the first `n` packages, tagged `[1, pkg]`. */
  function CapBlocks(fps: seq<FlashPackage>, frame: Block -> seq<int>, n: int): seq<int>
    requires 0 <= n <= |fps|
  {
    if n == 0 then [] else CapBlocks(fps, frame, n - 1) + frame(Block([FILETYPE_CAP, ToByte(n - 1)], fps[n - 1].cap))
  }

  /**
   * The loop of `writeBinary` over the first `n` packages: the bytes of the CAP blocks
   * and of the static blocks, each included when asked for.
   */
  function BinaryParts(fps: seq<FlashPackage>, statics: map<int, seq<FlashStaticField>>, withApps: bool,
                       withStatic: bool, frame: Block -> seq<int>, n: int): Result<(seq<int>, seq<int>)>
    requires 0 <= n <= |fps|
  {
    if n == 0 then Ok(([], []))
    else
      var parts :- BinaryParts(fps, statics, withApps, withStatic, frame, n - 1);
      var p := n - 1;
      var apps := parts.0 + if withApps then frame(Block([FILETYPE_CAP, ToByte(p)], fps[p].cap)) else [];
      if withStatic && p in statics then
        var more :- StaticBytes(p, statics[p], frame);
        Ok((apps, parts.1 + more))
      else Ok((apps, parts.1))
  }

  /**
   * The loop fails only on a package whose statics fail; its CAP part is every
   * package's CAP block in package order, or nothing, and its static part is empty
   * unless statics are asked for.
   */
  lemma {:induction false} BinaryPartsMeaning(fps: seq<FlashPackage>, statics: map<int, seq<FlashStaticField>>,
                                              withApps: bool, withStatic: bool, frame: Block -> seq<int>, n: int)
    requires 0 <= n <= |fps|
    ensures BinaryParts(fps, statics, withApps, withStatic, frame, n).Ok? <==>
              !withStatic || forall p :: 0 <= p < n && p in statics ==> StaticBytes(p, statics[p], frame).Ok?
    ensures BinaryParts(fps, statics, withApps, withStatic, frame, n).Ok? ==>
              var parts := BinaryParts(fps, statics, withApps, withStatic, frame, n).value;
              parts.0 == (if withApps then CapBlocks(fps, frame, n) else []) &&
              (!withStatic ==> parts.1 == [])
  {
    if n > 0 {
      BinaryPartsMeaning(fps, statics, withApps, withStatic, frame, n - 1);
    }
  }

  // ---------------------------------------------------------------- the package list

  /** `1 << k` as a byte. */
  function BitMask(k: int): bv8
    requires 0 <= k < 8
  {
    match k
    case 0 => 0x01 case 1 => 0x02 case 2 => 0x04 case 3 => 0x08
    case 4 => 0x10 case 5 => 0x20 case 6 => 0x40 case _ => 0x80
  }

  /** Whether bit `k` of byte `b` is set. */
  predicate BitOf(b: bv8, k: int)
    requires 0 <= k < 8
  {
    b & BitMask(k) != 0
  }

  /** A byte with its low `m` bits set, `(1 << m) - 1`: none below 1, all from 8 on. */
  function LowBits(m: int): bv8
  {
    if m <= 0 then 0
    else if m >= 8 then 0xFF
    else match m
      case 1 => 0x01 case 2 => 0x03 case 3 => 0x07 case 4 => 0x0F
      case 5 => 0x1F case 6 => 0x3F case _ => 0x7F
  }

  /** Bit `k` of `LowBits(m)` is set exactly when `k < m`. */
  lemma LowBitsMeaning(m: int, k: int)
    requires 0 <= k < 8
    ensures BitOf(LowBits(m), k) <==> k < m
  {
  }

  /** Setting bit `m` of `LowBits(m)` gives `LowBits(m + 1)`. */
  lemma LowBitsNext(m: int)
    requires 0 <= m < 8
    ensures LowBits(m) | BitMask(m) == LowBits(m + 1)
  {
  }

  /**
   * `pkgs_array` after its first `n` packages, byte by byte: byte `j` holds the bits
   * of those of packages `8j .. 8j+7` that are below `n`.
   */
  function Bitset(n: int): (r: seq<bv8>)
    ensures |r| == JCVM_MAX_PACKAGES / 8
  {
    seq(JCVM_MAX_PACKAGES / 8, j => LowBits(n - 8 * j))
  }

  /** Package `i` is marked in the list exactly when it is one of the first `n`. */
  lemma BitsetMeaning(n: int, i: int)
    requires 0 <= i < JCVM_MAX_PACKAGES
    ensures BitOf(Bitset(n)[i / 8], i % 8) <==> i < n
  {
    LowBitsMeaning(n - 8 * (i / 8), i % 8);
  }

  /** Marking package `n` in the list of the first `n` gives the list of the first `n + 1`. */
  lemma BitsetStep(n: int)
    requires 0 <= n < JCVM_MAX_PACKAGES
    ensures Bitset(n)[n / 8 := Bitset(n)[n / 8] | BitMask(n % 8)] == Bitset(n + 1)
  {
    var before, after := Bitset(n), Bitset(n + 1);
    LowBitsNext(n % 8);
    assert n - 8 * (n / 8) == n % 8;
    forall j | 0 <= j < |before| && j != n / 8
      ensures before[j] == after[j]
    {
      assert n + 1 - 8 * j <= 0 || n - 8 * j >= 8;
    }
  }

  /** The loop that fills `pkgs_array`, one bit per package. */
  method PackageList(nbPkg: int) returns (pkgs: array<bv8>)
    requires 0 <= nbPkg <= JCVM_MAX_PACKAGES
    ensures fresh(pkgs) && pkgs[..] == Bitset(nbPkg)
  {
    pkgs := new bv8[JCVM_MAX_PACKAGES / 8](_ => 0);
    assert pkgs[..] == Bitset(0);
    var index := 0;
    while index < nbPkg
      invariant 0 <= index <= nbPkg && pkgs[..] == Bitset(index)
    {
      BitsetStep(index);
      pkgs[index / 8] := pkgs[index / 8] | BitMask(index % 8);
      index := index + 1;
    }
  }

  /** The unsigned values of bytes. */
  function Unsigned(bs: seq<bv8>): (r: seq<int>)
    ensures |r| == |bs| && AllBytes(r)
    ensures forall i :: 0 <= i < |bs| ==> r[i] == bs[i] as int
  {
    if bs == [] then [] else Unsigned(bs[..|bs| - 1]) + [bs[|bs| - 1] as int]
  }

  /** Whether package `i` is marked in the package list of `n` packages. */
  predicate Marked(n: int, i: int)
    requires 0 <= i < JCVM_MAX_PACKAGES
  {
    BitOf(Bitset(n)[i / 8], i % 8)
  }

  // ---------------------------------------------------------------- the image

  /** The package list block: tag `[0]` and the bitset of the first `n` packages. */
  function PackageListBlock(n: int): Block
  {
    Block([FILETYPE_PKGLIST], Unsigned(Bitset(n)))
  }

  /**
   * `writeBinary` without the sector padding, as written: the CAP blocks, the package
   * list and the static blocks, each when asked for, with the size of the CAP and
   * static blocks. More than 255 packages are refused up front; more than 64 with the
   * CAP blocks pass that guard and overrun the eight bytes of the package list.
   */
  function BinaryAsWritten(fps: seq<FlashPackage>, statics: map<int, seq<FlashStaticField>>,
                           withApps: bool, withStatic: bool, frame: Block -> seq<int>): Result<(seq<int>, int)>
  {
    if |fps| > 255 then Err("There are more than 255 packages")
    else
      var parts :- BinaryParts(fps, statics, withApps, withStatic, frame, |fps|);
      var apps := parts.0;
      if withApps && |apps| > 0x20000 then
        Err("appsToWrite to write is more than 128k (" + Decimal(|apps|) + "B)")
      else if withApps && |fps| > JCVM_MAX_PACKAGES then Err("ArrayIndexOutOfBoundsException")
      else
        var list := if withApps then frame(PackageListBlock(|fps|)) else [];
        Ok((apps + list + parts.1, |apps| + |parts.1|))
  }

  /**
   * `writeBinary` with the package count checked against the size of the package
   * list: more than 64 packages with the CAP blocks are refused with a message.
   */
  function Binary(fps: seq<FlashPackage>, statics: map<int, seq<FlashStaticField>>,
                  withApps: bool, withStatic: bool, frame: Block -> seq<int>): Result<(seq<int>, int)>
  {
    if withApps && JCVM_MAX_PACKAGES < |fps| <= 255 then Err("There are more than 64 packages")
    else BinaryAsWritten(fps, statics, withApps, withStatic, frame)
  }

  /**
   * Between 65 and 255 packages whose CAP blocks fit in 128 KiB pass the guard of
   * `writeBinary` and then overrun the package list.
   */
  lemma BinaryAsWrittenOverruns(fps: seq<FlashPackage>, statics: map<int, seq<FlashStaticField>>,
                                withStatic: bool, frame: Block -> seq<int>)
    requires JCVM_MAX_PACKAGES < |fps| <= 255 && |CapBlocks(fps, frame, |fps|)| <= 0x20000
    requires withStatic ==> forall p :: 0 <= p < |fps| && p in statics ==> StaticBytes(p, statics[p], frame).Ok?
    ensures BinaryAsWritten(fps, statics, true, withStatic, frame) == Err("ArrayIndexOutOfBoundsException")
    ensures Binary(fps, statics, true, withStatic, frame) == Err("There are more than 64 packages")
  {
    BinaryPartsMeaning(fps, statics, true, withStatic, frame, |fps|);
  }

  /**
   * The image refuses more than 255 packages, more than 64 with the CAP blocks, CAP
   * blocks over 128 KiB and statics that fail; otherwise it is the CAP blocks in package
   * order and the package list, when asked for, then the static blocks, and its size
   * leaves out the package list. The package list marks exactly the packages written.
   */
  lemma BinaryMeaning(fps: seq<FlashPackage>, statics: map<int, seq<FlashStaticField>>,
                      withApps: bool, withStatic: bool, frame: Block -> seq<int>)
    ensures var caps := CapBlocks(fps, frame, if |fps| <= 255 then |fps| else 0);
            Binary(fps, statics, withApps, withStatic, frame).Ok? <==>
              && |fps| <= 255
              && (withApps ==> |fps| <= JCVM_MAX_PACKAGES && |caps| <= 0x20000)
              && (withStatic ==> forall p :: 0 <= p < |fps| && p in statics ==> StaticBytes(p, statics[p], frame).Ok?)
    ensures Binary(fps, statics, withApps, withStatic, frame).Ok? ==>
              var (out, size) := Binary(fps, statics, withApps, withStatic, frame).value;
              var st := BinaryParts(fps, statics, withApps, withStatic, frame, |fps|).value.1;
              && (withApps ==> out == CapBlocks(fps, frame, |fps|) + frame(PackageListBlock(|fps|)) + st)
              && (!withApps ==> out == st)
              && (!withStatic ==> st == [])
              && size == |out| - (if withApps then |frame(PackageListBlock(|fps|))| else 0)
              && (withApps ==> forall i :: 0 <= i < JCVM_MAX_PACKAGES ==> (Marked(|fps|, i) <==> i < |fps|))
  {
    if |fps| <= 255 {
      BinaryPartsMeaning(fps, statics, withApps, withStatic, frame, |fps|);
      forall i | 0 <= i < JCVM_MAX_PACKAGES
        ensures Marked(|fps|, i) <==> i < |fps|
      {
        BitsetMeaning(|fps|, i);
      }
    }
  }

  /** A failing static is the failure of its package's static blocks. */
  lemma {:induction false} StaticBytesFails(pkg: int, statics: seq<FlashStaticField>, frame: Block -> seq<int>,
                                            n: int, out: seq<int>)
    requires 0 <= n < |statics| && StaticBytes(pkg, statics[..n], frame) == Ok(out)
    requires StaticBlockOf(pkg, n, statics[n]).Err?
    ensures StaticBytes(pkg, statics, frame) == Err(StaticBlockOf(pkg, n, statics[n]).message)
    decreases |statics|
  {
    var last := |statics| - 1;
    if n < last {
      assert statics[..last][..n] == statics[..n] && statics[..last][n] == statics[n];
      StaticBytesFails(pkg, statics[..last], frame, n, out);
    }
  }

  /** One more static written. */
  lemma StaticBytesNext(pkg: int, statics: seq<FlashStaticField>, frame: Block -> seq<int>, n: int, out: seq<int>)
    requires 0 <= n < |statics| && StaticBytes(pkg, statics[..n], frame) == Ok(out)
    requires StaticBlockOf(pkg, n, statics[n]).Ok?
    ensures var b := StaticBlockOf(pkg, n, statics[n]).value;
            StaticBytes(pkg, statics[..n + 1], frame) == Ok(out + if b.Some? then frame(b.value) else [])
  {
    assert statics[..n + 1][..n] == statics[..n];
  }

  /** The static blocks of a package, one static at a time. */
  method WriteStatics(pkg: int, statics: seq<FlashStaticField>, frame: Block -> seq<int>) returns (r: Result<seq<int>>)
    ensures r == StaticBytes(pkg, statics, frame)
  {
    var out := [];
    var staticNumb := 0;
    while staticNumb < |statics|
      invariant 0 <= staticNumb <= |statics| && StaticBytes(pkg, statics[..staticNumb], frame) == Ok(out)
    {
      var b := StaticBlockOf(pkg, staticNumb, statics[staticNumb]);
      if b.Err? {
        StaticBytesFails(pkg, statics, frame, staticNumb, out);
        return Err(b.message);
      }
      StaticBytesNext(pkg, statics, frame, staticNumb, out);
      if b.value.Some? {
        out := out + frame(b.value.value);
      } else {
        assert out + [] == out;
      }
      staticNumb := staticNumb + 1;
    }
    assert statics[..staticNumb] == statics;
    r := Ok(out);
  }

  /** A failure on the first `n` packages is the failure of the first `m`. */
  lemma {:induction false} BinaryPartsErr(fps: seq<FlashPackage>, statics: map<int, seq<FlashStaticField>>,
                                          withApps: bool, withStatic: bool, frame: Block -> seq<int>, n: int, m: int)
    requires 0 <= n <= m <= |fps| && BinaryParts(fps, statics, withApps, withStatic, frame, n).Err?
    ensures BinaryParts(fps, statics, withApps, withStatic, frame, m) == BinaryParts(fps, statics, withApps, withStatic, frame, n)
    decreases m
  {
    if n < m {
      BinaryPartsErr(fps, statics, withApps, withStatic, frame, n, m - 1);
    }
  }

  /** One more package written: its CAP block, then its static blocks. */
  lemma BinaryPartsStep(fps: seq<FlashPackage>, statics: map<int, seq<FlashStaticField>>, withApps: bool,
                        withStatic: bool, frame: Block -> seq<int>, n: int, apps: seq<int>, st: seq<int>)
    requires 0 <= n < |fps| && BinaryParts(fps, statics, withApps, withStatic, frame, n) == Ok((apps, st))
    ensures var apps' := apps + if withApps then frame(Block([FILETYPE_CAP, ToByte(n)], fps[n].cap)) else [];
            var next := BinaryParts(fps, statics, withApps, withStatic, frame, n + 1);
            && (withStatic && n in statics && StaticBytes(n, statics[n], frame).Err? ==>
                  next == Err(StaticBytes(n, statics[n], frame).message))
            && (withStatic && n in statics && StaticBytes(n, statics[n], frame).Ok? ==>
                  next == Ok((apps', st + StaticBytes(n, statics[n], frame).value)))
            && (!(withStatic && n in statics) ==> next == Ok((apps', st)))
  {
  }

  /** The loop of `writeBinary` over the packages: their CAP blocks and their static blocks. */
  method WriteParts(fps: seq<FlashPackage>, statics: map<int, seq<FlashStaticField>>, withApps: bool,
                    withStatic: bool, frame: Block -> seq<int>) returns (r: Result<(seq<int>, seq<int>)>)
    ensures r == BinaryParts(fps, statics, withApps, withStatic, frame, |fps|)
  {
    var apps, st := [], [];
    var pckIndex := 0;
    while pckIndex < |fps|
      invariant 0 <= pckIndex <= |fps|
      invariant BinaryParts(fps, statics, withApps, withStatic, frame, pckIndex) == Ok((apps, st))
    {
      BinaryPartsStep(fps, statics, withApps, withStatic, frame, pckIndex, apps, st);
      if withApps {
        apps := apps + frame(Block([FILETYPE_CAP, ToByte(pckIndex)], fps[pckIndex].cap));
      } else {
        assert apps + [] == apps;
      }
      if withStatic && pckIndex in statics {
        var more := WriteStatics(pckIndex, statics[pckIndex], frame);
        if more.Err? {
          BinaryPartsErr(fps, statics, withApps, withStatic, frame, pckIndex + 1, |fps|);
          return Err(more.message);
        }
        st := st + more.value;
      }
      pckIndex := pckIndex + 1;
    }
    r := Ok((apps, st));
  }

  /** The body of `writeBinary` on the filesystem's packages and statics. */
  method WriteImage(fps: seq<FlashPackage>, statics: map<int, seq<FlashStaticField>>, withApps: bool,
                    withStatic: bool, frame: Block -> seq<int>) returns (r: Result<(seq<int>, int)>)
    ensures r == Binary(fps, statics, withApps, withStatic, frame)
  {
    if |fps| > 255 {
      return Err("There are more than 255 packages");
    }
    if withApps && |fps| > JCVM_MAX_PACKAGES {
      return Err("There are more than 64 packages");
    }
    var parts := WriteParts(fps, statics, withApps, withStatic, frame);
    if parts.Err? {
      return Err(parts.message);
    }
    r := FinishImage(|fps|, withApps, frame, parts.value.0, parts.value.1);
  }

  /** The end of `writeBinary`: the size check on the CAP blocks, then the package list. */
  method FinishImage(n: int, withApps: bool, frame: Block -> seq<int>, apps: seq<int>, st: seq<int>)
    returns (r: Result<(seq<int>, int)>)
    requires 0 <= n && (withApps ==> n <= JCVM_MAX_PACKAGES)
    ensures withApps && |apps| > 0x20000 ==> r == Err("appsToWrite to write is more than 128k (" + Decimal(|apps|) + "B)")
    ensures !(withApps && |apps| > 0x20000) ==>
              r == Ok((apps + (if withApps then frame(PackageListBlock(n)) else []) + st, |apps| + |st|))
  {
    if withApps && |apps| > 0x20000 {
      return Err("appsToWrite to write is more than 128k (" + Decimal(|apps|) + "B)");
    }
    var out := apps;
    if withApps {
      var pkgs := PackageList(n);
      out := out + frame(Block([FILETYPE_PKGLIST], Unsigned(pkgs[..])));
    } else {
      assert out + [] == out;
    }
    r := Ok((out + st, |apps| + |st|));
  }

  /** Every byte a framing of bytes gives is a byte. */
  ghost predicate FramesBytes(frame: Block -> seq<int>)
  {
    forall b :: AllBytes(frame(b))
  }

  lemma {:induction false} CapBlocksBytes(fps: seq<FlashPackage>, frame: Block -> seq<int>, n: int)
    requires 0 <= n <= |fps| && FramesBytes(frame)
    ensures AllBytes(CapBlocks(fps, frame, n))
  {
    if n > 0 {
      CapBlocksBytes(fps, frame, n - 1);
      AllBytesAppend(CapBlocks(fps, frame, n - 1), frame(Block([FILETYPE_CAP, ToByte(n - 1)], fps[n - 1].cap)));
    }
  }

  lemma {:induction false} StaticBytesBytes(pkg: int, statics: seq<FlashStaticField>, frame: Block -> seq<int>)
    requires FramesBytes(frame) && StaticBytes(pkg, statics, frame).Ok?
    ensures AllBytes(StaticBytes(pkg, statics, frame).value)
  {
    if statics != [] {
      var n := |statics| - 1;
      StaticBytesBytes(pkg, statics[..n], frame);
      var b := StaticBlockOf(pkg, n, statics[n]).value;
      AllBytesAppend(StaticBytes(pkg, statics[..n], frame).value, if b.Some? then frame(b.value) else []);
    }
  }

  lemma {:induction false} BinaryPartsBytes(fps: seq<FlashPackage>, statics: map<int, seq<FlashStaticField>>,
                                            withApps: bool, withStatic: bool, frame: Block -> seq<int>, n: int)
    requires 0 <= n <= |fps| && FramesBytes(frame)
    requires BinaryParts(fps, statics, withApps, withStatic, frame, n).Ok?
    ensures AllBytes(BinaryParts(fps, statics, withApps, withStatic, frame, n).value.1)
  {
    if n > 0 {
      var p := n - 1;
      BinaryPartsBytes(fps, statics, withApps, withStatic, frame, p);
      if withStatic && p in statics {
        StaticBytesBytes(p, statics[p], frame);
        AllBytesAppend(BinaryParts(fps, statics, withApps, withStatic, frame, p).value.1,
                       StaticBytes(p, statics[p], frame).value);
      }
    }
  }

  /** With a framing of bytes, the image is bytes. */
  lemma BinaryBytes(fps: seq<FlashPackage>, statics: map<int, seq<FlashStaticField>>,
                    withApps: bool, withStatic: bool, frame: Block -> seq<int>)
    requires FramesBytes(frame) && Binary(fps, statics, withApps, withStatic, frame).Ok?
    ensures AllBytes(Binary(fps, statics, withApps, withStatic, frame).value.0)
  {
    BinaryMeaning(fps, statics, withApps, withStatic, frame);
    BinaryPartsBytes(fps, statics, withApps, withStatic, frame, |fps|);
    var st := BinaryParts(fps, statics, withApps, withStatic, frame, |fps|).value.1;
    if withApps {
      CapBlocksBytes(fps, frame, |fps|);
      var caps := CapBlocks(fps, frame, |fps|);
      AllBytesAppend(caps, frame(PackageListBlock(|fps|)));
      AllBytesAppend(caps + frame(PackageListBlock(|fps|)), st);
    }
  }

  /** `writeInIntelHexFile`: the image of `writeBinary` as Intel HEX lines, with the image's size. */
  function HexFile(fps: seq<FlashPackage>, statics: map<int, seq<FlashStaticField>>, beginAddress: int,
                   withApps: bool, withStatic: bool, frame: Block -> seq<int>): Result<(seq<string>, int)>
    requires -0x8000_0000 <= beginAddress < 0x8000_0000
  {
    var (data, size) :- Binary(fps, statics, withApps, withStatic, frame);
    Ok((IntelHex.HexText(data, beginAddress), size))
  }
}
