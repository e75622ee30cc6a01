/**
 * Per-instruction parameter encoders of the assembler (how the textual operands of
 * one instruction become its parameter bytes), the matching `toString` renderings,
 * and the label patching of the two switch instructions.
 */
module Instructions {
  import opened Wrappers
  import opened Bytes
  import opened Opcodes
  import opened Jca

  /** Java's `(short) Integer.parseInt(s)`. */
  function ParseShort(s: string): (r: Result<int>)
    ensures r.Ok? <==> ParseInt(s).Ok?
    ensures r.Ok? ==> -32768 <= r.value < 32768 && ToShort(r.value) == ToShort(ParseInt(s).value)
  {
    var v :- ParseInt(s);
    Ok(SignedShort(ToShort(v)))
  }

  /** A label operand `L<n>`: Java's `(short) Integer.parseInt(s.substring(1))`. */
  function ParseLabel(s: string): (r: Result<int>)
    ensures r.Ok? ==> |s| > 0 && -32768 <= r.value < 32768
  {
    if |s| == 0 then Err("StringIndexOutOfBoundsException") else ParseShort(s[1..])
  }

  /** The assembler's label text `L<n>` reads back as label `n`. */
  lemma ParseLabelOfText(n: int)
    requires 0 <= n < 32768
    ensures ParseLabel("L" + Decimal(n)) == Ok(n)
  {
    var s := "L" + Decimal(n);
    assert s[1..] == Decimal(n) == SignedDecimal(n);
    ParseIntOfDecimal(n);
  }

  // ---------------------------------------------------------------- newarray

  /** The array type names `newarray` accepts, for type codes 10, 11, 12 and 13. */
  const ArrayTypeNames: seq<string> := ["boolean[]", "byte[]", "short[]", "int[]"]

  /** `NEWARRAY.generateParametersList`: one operand, a type code 10..13 or an array type name. */
  function NewArrayParams(ps: seq<string>): (r: Result<seq<int>>)
    ensures r.Ok? <==> |ps| == 1 && (ps[0] in ["10", "11", "12", "13"] || ps[0] in ArrayTypeNames)
    ensures r.Ok? ==> |r.value| == 1 && 10 <= r.value[0] <= 13
  {
    if |ps| != 1 then Err("invalid parameters size")
    else if ps[0] == "10" then Ok([10])
    else if ps[0] == "11" then Ok([11])
    else if ps[0] == "12" then Ok([12])
    else if ps[0] == "13" then Ok([13])
    else if ps[0] == "boolean[]" then Ok([10])
    else if ps[0] == "byte[]" then Ok([11])
    else if ps[0] == "short[]" then Ok([12])
    else if ps[0] == "int[]" then Ok([13])
    else Err("InvalidParameterException")
  }

  /** `NEWARRAY.toString`: the mnemonic and the array type name of the code. */
  function NewArrayText(p: seq<int>): (r: Result<string>)
    ensures r.Ok? <==> |p| > 0 && 10 <= p[0] <= 13
  {
    if |p| == 0 then Err("IndexOutOfBoundsException")
    else if 10 <= p[0] <= 13 then Ok(Mnemonic(NEWARRAY) + " " + ArrayTypeNames[p[0] - 10])
    else Err("invalid parameter value")
  }

  /** An array type name survives encoding and rendering; a type code renders as its name. */
  lemma NewArrayRoundTrip(k: int)
    requires 0 <= k < 4
    ensures NewArrayParams([ArrayTypeNames[k]]) == Ok([10 + k])
    ensures NewArrayText([10 + k]) == Ok(Mnemonic(NEWARRAY) + " " + ArrayTypeNames[k])
    ensures NewArrayParams([Decimal(10 + k)]) == Ok([10 + k])
  {
    assert Decimal(10 + k) == [DigitChar(1), DigitChar(k)];
  }

  // ---------------------------------------------------------------- checkcast

  /** `CHECKCAST.generateParametersList`: two operands, the type byte then the 16-bit index. */
  function CheckcastParams(ps: seq<string>): (r: Result<seq<int>>)
    ensures r.Ok? <==> |ps| == 2 && ParseInt(ps[0]).Ok? && ParseInt(ps[1]).Ok?
    ensures r.Ok? ==> |r.value| == 3 && AllBytes(r.value)
    ensures r.Ok? ==> r.value[0] == ToByte(ParseInt(ps[0]).value)
    ensures r.Ok? ==> r.value[1] * 256 + r.value[2] == ToShort(ParseInt(ps[1]).value)
  {
    if |ps| != 2 then Err("invalid parameters size")
    else
      var aType :- ParseInt(ps[0]);
      var index :- ParseShort(ps[1]);
      Ok([ToByte(aType)] + BigEndian16(index))
  }

  /** The type names `checkcast` renders, for type codes 10..14. */
  const CheckcastTypeNames: seq<string> := ["T_BOOLEAN", "T_BYTE", "T_SHORT", "T_INT", "T_REFERENCE"]

  /** The index `CHECKCAST.toString` shows, as written: byte 1 shifted, OR the TYPE byte 0. */
  function CheckcastShownIndexAsWritten(p: seq<int>): int
    requires |p| >= 2 && AllBytes(p)
  {
    ToShort((SignedByte(p[1]) * 256 + p[0]) % 65536)
  }

  /** The index the two index bytes hold. */
  function CheckcastShownIndex(p: seq<int>): int
    requires |p| >= 3 && AllBytes(p)
  {
    p[1] * 256 + p[2]
  }

  /** `CHECKCAST.toString` with the index read from bytes 1 and 2: every type code 10..14 is named. */
  function CheckcastText(p: seq<int>): (r: Result<string>)
    requires AllBytes(p)
    ensures r.Ok? <==> |p| >= 3 && 10 <= p[0] <= 14
  {
    if |p| < 3 then Err("IndexOutOfBoundsException")
    else if 10 <= p[0] <= 14 then
      Ok(Mnemonic(CHECKCAST) + " " + CheckcastTypeNames[p[0] - 10] + " " + Decimal(CheckcastShownIndex(p)))
    else Err("invalid parameter value")
  }

  /** The rendered index is the encoded index, for every operand pair the encoder accepts. */
  lemma CheckcastIndexRoundTrip(ps: seq<string>)
    requires CheckcastParams(ps).Ok?
    ensures CheckcastShownIndex(CheckcastParams(ps).value) == ToShort(ParseInt(ps[1]).value)
  {
  }

  /** As written, the shown index is built from the type byte: `checkcast 10 1` shows index 10. */
  lemma CheckcastIndexAsWrittenWrong()
    ensures CheckcastParams(["10", "1"]) == Ok([10, 0, 1])
    ensures CheckcastShownIndexAsWritten([10, 0, 1]) == 10 != ToShort(1)
  {
    var ps := ["10", "1"];
    assert ps[0] == "10" && ps[1] == "1" && |ps| == 2;
    assert SignedDecimal(10) == "10" && SignedDecimal(1) == "1";
    ParseIntOfDecimal(10);
    ParseIntOfDecimal(1);
    assert ParseShort("1") == Ok(1);
    assert BigEndian16(1) == [0, 1];
    assert CheckcastParams(ps) == Ok([ToByte(10)] + BigEndian16(1));
    assert [ToByte(10)] + BigEndian16(1) == [10, 0, 1];
  }

  // ---------------------------------------------------------------- instanceof

  /**
   * `INSTANCEOF.generateParametersList`: two operands, the type byte then the 16-bit
   * index. Its type check `(aType < 10) && (aType > 14)` can never hold, so every
   * parsed type byte is accepted.
   */
  function InstanceofParams(ps: seq<string>): (r: Result<seq<int>>)
    ensures r.Ok? <==> |ps| == 2 && ParseInt(ps[0]).Ok? && ParseInt(ps[1]).Ok?
    ensures r.Ok? ==> |r.value| == 3 && AllBytes(r.value)
    ensures r.Ok? ==> r.value[0] == ToByte(ParseInt(ps[0]).value)
    ensures r.Ok? ==> r.value[1] * 256 + r.value[2] == ToShort(ParseInt(ps[1]).value)
  {
    if |ps| != 2 then Err("invalid parameters size")
    else
      var aType :- ParseInt(ps[0]);
      var index :- ParseShort(ps[1]);
      var a := SignedByte(ToByte(aType));
      if a < 10 && a > 14 then Err("invalid type parameter")
      else Ok([ToByte(aType)] + BigEndian16(index))
  }

  /** `INSTANCEOF.toString`: only type codes 10..13 are named; the index is shown as a signed short. */
  function InstanceofText(p: seq<int>): (r: Result<string>)
    requires AllBytes(p)
    ensures r.Ok? <==> |p| >= 3 && 10 <= p[0] <= 13
  {
    if |p| < 3 then Err("IndexOutOfBoundsException")
    else if 10 <= p[0] <= 13 then
      Ok(Mnemonic(INSTANCEOF) + " " + ArrayTypeNames[p[0] - 10] + SignedDecimal(InstanceofShownIndex(p)))
    else Err("invalid parameter value")
  }

  function InstanceofShownIndex(p: seq<int>): int
    requires |p| >= 3 && AllBytes(p)
  {
    SignedShort(p[1] * 256 + p[2])
  }

  /** The shown index is the parsed index after Java's cast to short. */
  lemma InstanceofIndexRoundTrip(ps: seq<string>)
    requires InstanceofParams(ps).Ok?
    ensures InstanceofShownIndex(InstanceofParams(ps).value) == ParseShort(ps[1]).value
  {
  }

  // ---------------------------------------------------------------- invokeinterface

  /** `INVOKEINTERFACE.generateParametersList`: nargs, the 16-bit index, the method token. */
  function InvokeInterfaceParams(ps: seq<string>): (r: Result<seq<int>>)
    ensures r.Ok? <==> |ps| == 3 && ParseInt(ps[0]).Ok? && ParseInt(ps[1]).Ok? && ParseInt(ps[2]).Ok?
    ensures r.Ok? ==> |r.value| == 4 && AllBytes(r.value)
    ensures r.Ok? ==> r.value[0] == ToByte(ParseInt(ps[0]).value) && r.value[3] == ToByte(ParseInt(ps[2]).value)
    ensures r.Ok? ==> r.value[1] * 256 + r.value[2] == ToShort(ParseInt(ps[1]).value)
  {
    if |ps| != 3 then Err("invalid parameters size")
    else
      var nargs :- ParseInt(ps[0]);
      var index :- ParseShort(ps[1]);
      var methodToken :- ParseInt(ps[2]);
      Ok([ToByte(nargs)] + BigEndian16(index) + [ToByte(methodToken)])
  }

  /** `INVOKEINTERFACE.toString`: nargs unsigned, the index as a signed short, the method token unsigned. */
  function InvokeInterfaceText(p: seq<int>): (r: string)
    requires |p| >= 4 && AllBytes(p)
  {
    Mnemonic(INVOKEINTERFACE) + " " + Decimal(p[0]) + SignedDecimal(SignedShort(p[1] * 256 + p[2]))
    + " " + Decimal(p[3])
  }

  /** An `invokeinterface` is 5 bytes long, and its text shows the operands it was built from. */
  lemma InvokeInterfaceRoundTrip(ps: seq<string>)
    requires InvokeInterfaceParams(ps).Ok?
    ensures InstructionSize(Instruction(INVOKEINTERFACE, InvokeInterfaceParams(ps).value, NoLabels)) == 5
    ensures InvokeInterfaceText(InvokeInterfaceParams(ps).value) ==
            Mnemonic(INVOKEINTERFACE) + " " + Decimal(ToByte(ParseInt(ps[0]).value))
            + SignedDecimal(ParseShort(ps[1]).value) + " " + Decimal(ToByte(ParseInt(ps[2]).value))
  {
  }

  // ---------------------------------------------------------------- 4-byte operand

  /**
   * `InstructionWith4BytesParameter.generateParametersList` as written: each byte is
   * `(byte)(value & mask)`, and the cast keeps only the low 8 bits of the masked
   * value, so bytes 0..2 are always 0.
   */
  function FourByteParamsAsWritten(ps: seq<string>): (r: Result<seq<int>>)
    ensures r.Ok? ==> |r.value| == 4 && r.value[..3] == [0, 0, 0] && IsByte(r.value[3])
  {
    if |ps| == 0 then Err("IndexOutOfBoundsException")
    else
      var v :- ParseInt(ps[0]);
      Ok([ToByte(0), ToByte(0), ToByte(0), ToByte(v)])
  }

  /** The 4-byte operand in big-endian order, the encoding the decoder expects. */
  function FourByteParams(ps: seq<string>): (r: Result<seq<int>>)
    ensures r.Ok? <==> |ps| > 0 && ParseInt(ps[0]).Ok?
    ensures r.Ok? ==> |r.value| == 4 && AllBytes(r.value)
  {
    if |ps| == 0 then Err("IndexOutOfBoundsException")
    else
      var v :- ParseInt(ps[0]);
      Ok(BigEndian32(v))
  }

  /** `InstructionWith4BytesParameter.toString`'s value: the 4 bytes recombined big-endian, as a signed int. */
  function FourByteValue(p: seq<int>): (r: int)
    requires |p| >= 4 && AllBytes(p)
    ensures -0x8000_0000 <= r < 0x8000_0000
  {
    var u := ((p[0] * 256 + p[1]) * 256 + p[2]) * 256 + p[3];
    if u < 0x8000_0000 then u else u - 0x1_0000_0000
  }

  /** As written, only values 0..255 survive encoding and rendering. */
  lemma FourByteAsWrittenRoundTrip(ps: seq<string>)
    requires FourByteParamsAsWritten(ps).Ok?
    ensures FourByteValue(FourByteParamsAsWritten(ps).value) == ParseInt(ps[0]).value
            <==> 0 <= ParseInt(ps[0]).value <= 255
  {
  }

  /** As written, `256` is shown as `0`. */
  lemma FourByteAsWrittenLosesHighBytes()
    ensures FourByteParamsAsWritten(["256"]) == Ok([0, 0, 0, 0])
    ensures FourByteValue([0, 0, 0, 0]) == 0 != 256
  {
    assert ParseInt("256") == Ok(256) by { assert Decimal(256) == "256"; ParseIntOfDecimal(256); }
  }

  /** Big-endian encoding renders back every 32-bit value. */
  lemma FourByteRoundTrip(ps: seq<string>)
    requires FourByteParams(ps).Ok?
    ensures FourByteValue(FourByteParams(ps).value) == ParseInt(ps[0]).value
  {
  }

  // ---------------------------------------------------------------- ordered map of slookupswitch

  /** The entries of a `TreeMap` in iteration order: strictly ascending keys. */
  predicate Ascending(m: seq<(int, int)>)
  {
    forall i, j :: 0 <= i < j < |m| ==> m[i].0 < m[j].0
  }

  /** `TreeMap.get`. */
  function Get(m: seq<(int, int)>, k: int): Option<int>
  {
    if m == [] then None else if m[0].0 == k then Some(m[0].1) else Get(m[1..], k)
  }

  /** `TreeMap.put`: insert in key order, or replace the value of an existing key. */
  function Put(m: seq<(int, int)>, k: int, v: int): (r: seq<(int, int)>)
    requires Ascending(m)
    ensures Ascending(r) && r != []
    ensures r[0].0 == if m == [] || k < m[0].0 then k else m[0].0
    ensures Get(r, k) == Some(v)
    ensures forall x :: x != k ==> Get(r, x) == Get(m, x)
    ensures |r| <= |m| + 1
  {
    if m == [] then [(k, v)]
    else if k < m[0].0 then
      [(k, v)] + m
    else if k == m[0].0 then
      [(k, v)] + m[1..]
    else
      var rest := Put(m[1..], k, v);
      assert ([m[0]] + rest)[1..] == rest;
      [m[0]] + rest
  }

  /** Putting a key above every present key appends it. */
  lemma {:induction false} PutAbove(m: seq<(int, int)>, k: int, v: int)
    requires Ascending(m)
    requires forall i :: 0 <= i < |m| ==> m[i].0 < k
    ensures Put(m, k, v) == m + [(k, v)]
    decreases |m|
  {
    if m != [] {
      var rest := m[1..];
      assert m[0].0 < k;
      forall i, j | 0 <= i < j < |rest|
        ensures rest[i].0 < rest[j].0
      {
        assert rest[i] == m[i + 1] && rest[j] == m[j + 1];
      }
      forall i | 0 <= i < |rest|
        ensures rest[i].0 < k
      {
        assert rest[i] == m[i + 1];
      }
      PutAbove(rest, k, v);
      assert Put(m, k, v) == [m[0]] + Put(rest, k, v);
      assert [m[0]] + (rest + [(k, v)]) == m + [(k, v)];
    }
  }

  // ---------------------------------------------------------------- slookupswitch

  /** The match value and label of pair `k` of the operands, when both parse. */
  predicate PairParses(ps: seq<string>, k: int)
    requires 0 <= k && 2 * k + 3 < |ps|
  {
    ParseShort(ps[2 * k + 2]).Ok? && ParseLabel(ps[2 * k + 3]).Ok?
  }

  /** The first `n` (match value, label) pairs of the operands, read in order. */
  function ParsePairs(ps: seq<string>, n: int): (r: Result<seq<(int, int)>>)
    requires 0 <= n && 2 * n + 2 <= |ps|
    ensures r.Ok? ==> |r.value| == n
  {
    if n == 0 then Ok([])
    else
      var prev :- ParsePairs(ps, n - 1);
      var matchValue :- ParseShort(ps[2 * n]);
      var offsetLabel :- ParseLabel(ps[2 * n + 1]);
      Ok(prev + [(matchValue, offsetLabel)])
  }

  /** Pair `k` read from the operands is operand 2k+2 as a short and operand 2k+3 as a label. */
  lemma {:induction false} ParsePairsAt(ps: seq<string>, n: int, k: int)
    requires 0 <= k < n && 2 * n + 2 <= |ps|
    requires ParsePairs(ps, n).Ok?
    ensures PairParses(ps, k)
    ensures ParsePairs(ps, n).value[k] == (ParseShort(ps[2 * k + 2]).value, ParseLabel(ps[2 * k + 3]).value)
    decreases n
  {
    var prev := ParsePairs(ps, n - 1).value;
    if k < n - 1 {
      ParsePairsAt(ps, n - 1, k);
      assert ParsePairs(ps, n).value[k] == prev[k];
    }
  }

  /** Reading fails when some pair's match value or label does not parse. */
  lemma {:induction false} ParsePairsFails(ps: seq<string>, n: int, k: int)
    requires 0 <= k < n && 2 * n + 2 <= |ps|
    requires !PairParses(ps, k)
    ensures ParsePairs(ps, n).Err?
    decreases n
  {
    if k < n - 1 {
      ParsePairsFails(ps, n - 1, k);
    }
  }

  /** The parameter bytes of the pairs: each match value, then two placeholder bytes for its label offset. */
  function PairBytes(pairs: seq<(int, int)>): (r: seq<int>)
    ensures |r| == 4 * |pairs| && AllBytes(r)
  {
    if pairs == [] then []
    else PairBytes(pairs[..|pairs| - 1]) + BigEndian16(pairs[|pairs| - 1].0) + [0, 0]
  }

  /** The `TreeMap` the pairs are put into, one after the other. */
  function PairMap(pairs: seq<(int, int)>): (r: seq<(int, int)>)
    ensures Ascending(r) && |r| <= |pairs|
  {
    if pairs == [] then []
    else Put(PairMap(pairs[..|pairs| - 1]), pairs[|pairs| - 1].0, pairs[|pairs| - 1].1)
  }

  /** Pair `k`'s match value sits at bytes 4k..4k+1 of the pair bytes, followed by two zero bytes. */
  lemma {:induction false} PairBytesLayout(pairs: seq<(int, int)>, k: int)
    requires 0 <= k < |pairs|
    ensures PairBytes(pairs)[4 * k..4 * k + 4] == BigEndian16(pairs[k].0) + [0, 0]
    decreases |pairs|
  {
    var n := |pairs| - 1;
    var prev := PairBytes(pairs[..n]);
    if k < n {
      PairBytesLayout(pairs[..n], k);
      assert PairBytes(pairs)[4 * k..4 * k + 4] == prev[4 * k..4 * k + 4];
    }
  }

  /** A key of the map holds the label of the last pair that carries it. */
  lemma {:induction false} PairMapLast(pairs: seq<(int, int)>, k: int)
    requires 0 <= k < |pairs|
    requires forall j :: k < j < |pairs| ==> pairs[j].0 != pairs[k].0
    ensures Get(PairMap(pairs), pairs[k].0) == Some(pairs[k].1)
    decreases |pairs|
  {
    var n := |pairs| - 1;
    if k < n {
      PairMapLast(pairs[..n], k);
    }
  }

  /** With strictly increasing match values the map holds the pairs in operand order. */
  lemma {:induction false} PairMapInOrder(pairs: seq<(int, int)>)
    requires forall i, j :: 0 <= i < j < |pairs| ==> pairs[i].0 < pairs[j].0
    ensures PairMap(pairs) == pairs
    decreases |pairs|
  {
    if pairs != [] {
      var n := |pairs| - 1;
      var init := pairs[..n];
      assert forall i :: 0 <= i < n ==> init[i] == pairs[i];
      PairMapInOrder(init);
      assert forall i :: 0 <= i < |init| ==> init[i].0 < pairs[n].0;
      var last := pairs[n];
      PutAbove(init, last.0, last.1);
      assert (last.0, last.1) == last;
      SplitLast(pairs);
    }
  }

  /** A non-empty sequence is its prefix and its last element. */
  lemma SplitLast(pairs: seq<(int, int)>)
    requires pairs != []
    ensures pairs[..|pairs| - 1] + [pairs[|pairs| - 1]] == pairs
  {
  }

  /**
   * `SLOOKUPSWITCH.generateParametersList`: default label and pair count (2 bytes each),
   * then per pair the match value and two placeholder bytes for its label offset.
   * The operand count must be 2*npair + 2.
   */
  function LookupSwitchParams(ps: seq<string>): (r: Result<(seq<int>, SwitchLabels)>)
    ensures r.Ok? ==> r.value.1.LookupLabels? && r.value.1.npair >= 0
    ensures r.Ok? ==> |ps| == 2 * r.value.1.npair + 2
    ensures r.Ok? ==> |r.value.0| == 4 + 4 * r.value.1.npair && AllBytes(r.value.0)
    ensures r.Ok? ==> |r.value.1.pairs| <= r.value.1.npair && Ascending(r.value.1.pairs)
  {
    if |ps| < 2 then Err("IndexOutOfBoundsException")
    else
      var defaultLabel :- ParseLabel(ps[0]);
      var npair :- ParseShort(ps[1]);
      if |ps| != 2 * npair + 2 then Err("invalid parameters size")
      else
        var pairs :- ParsePairs(ps, npair);
        Ok((BigEndian16(defaultLabel) + BigEndian16(npair) + PairBytes(pairs),
            LookupLabels(defaultLabel, npair, PairMap(pairs))))
  }

  // ---------------------------------------------------------------- itableswitch

  /** Java's 32-bit `int` wrap-around. */
  function Wrap32(x: int): (r: int)
    ensures -0x8000_0000 <= r < 0x8000_0000
    ensures -0x8000_0000 <= x < 0x8000_0000 ==> r == x
    ensures 0x8000_0000 <= x < 0x1_8000_0000 ==> r == x - 0x1_0000_0000
  {
    (x + 0x8000_0000) % 0x1_0000_0000 - 0x8000_0000
  }

  /**
   * The size check of `ITABLESWITCH`, `(high - low) + 4` computed in 32-bit
   * arithmetic, only admits three or more operands when the wrapped span is at
   * least -1, and then there are span + 4 of them.
   */
  lemma TableSizeCheck(span: int, n: int)
    requires -0x8000_0000 <= span < 0x8000_0000
    requires n >= 3 && n == Wrap32(Wrap32(span + 3) + 1)
    ensures span >= -1 && n == span + 4
  {
  }

  /** The case labels `foo = 0 .. count-1`, read from operand `foo + 3`. */
  function TableLabelList(ps: seq<string>, count: int): (r: Result<seq<int>>)
    requires 0 <= count && count + 3 <= |ps|
    ensures r.Ok? ==> |r.value| == count
  {
    if count == 0 then Ok([])
    else
      var prev :- TableLabelList(ps, count - 1);
      var l :- ParseLabel(ps[count + 2]);
      Ok(prev + [l])
  }

  /** The first ten parameter bytes of an `itableswitch`: default label, low, high. */
  function TableHeader(defaultLabel: int, low: int, high: int): (r: seq<int>)
    ensures |r| == 10 && AllBytes(r)
    ensures r[2..6] == BigEndian32(low) && r[6..10] == BigEndian32(high)
  {
    var r := BigEndian16(defaultLabel) + BigEndian32(low) + BigEndian32(high);
    assert r[2..6] == BigEndian32(low);
    r
  }

  /** Placeholder bytes. */
  function Zeros(n: nat): (r: seq<int>)
    ensures |r| == n && AllBytes(r)
  {
    seq(n, _ => 0)
  }

  /**
   * `ITABLESWITCH.generateParametersList`: default label (2 bytes), low and high
   * (4 bytes each, big-endian), then two placeholder bytes per case. The operand
   * count must be (high - low) + 4, computed in 32-bit arithmetic.
   */
  function TableSwitchParams(ps: seq<string>): (r: Result<(seq<int>, SwitchLabels)>)
    ensures r.Ok? ==> r.value.1.TableLabels? && |r.value.0| == 10 + 2 * |r.value.1.caseLabels|
    ensures r.Ok? ==> AllBytes(r.value.0) && |ps| == 3 + |r.value.1.caseLabels|
    ensures r.Ok? ==> r.value.0[2..6] == BigEndian32(r.value.1.low) && r.value.0[6..10] == BigEndian32(r.value.1.high)
    ensures r.Ok? && |ps| > 3 ==> |r.value.1.caseLabels| == Wrap32(r.value.1.high - r.value.1.low) + 1
  {
    if |ps| < 3 then Err("IndexOutOfBoundsException")
    else
      var defaultLabel :- ParseLabel(ps[0]);
      var low :- ParseInt(ps[1]);
      var high :- ParseInt(ps[2]);
      TableCases(ps, defaultLabel, low, high)
  }

  /** The part of `ITABLESWITCH.generateParametersList` after the default label, low and high are read. */
  function TableCases(ps: seq<string>, defaultLabel: int, low: int, high: int): (r: Result<(seq<int>, SwitchLabels)>)
    requires |ps| >= 3
    requires -0x8000_0000 <= low < 0x8000_0000 && -0x8000_0000 <= high < 0x8000_0000
    ensures r.Ok? ==> r.value.1.TableLabels? && r.value.1 == TableLabels(defaultLabel, low, high, r.value.1.caseLabels)
    ensures r.Ok? ==> |r.value.0| == 10 + 2 * |r.value.1.caseLabels|
    ensures r.Ok? ==> AllBytes(r.value.0) && |ps| == 3 + |r.value.1.caseLabels|
    ensures r.Ok? ==> r.value.0[2..6] == BigEndian32(low) && r.value.0[6..10] == BigEndian32(high)
    ensures r.Ok? && |ps| > 3 ==> |r.value.1.caseLabels| == Wrap32(high - low) + 1
  {
    var span := Wrap32(high - low);
    if |ps| != Wrap32(Wrap32(span + 3) + 1) then Err("invalid parameters size")
    else
      TableSizeCheck(span, |ps|);
      var count := span + 1;
      var labels :- TableLabelList(ps, count);
      var header := TableHeader(defaultLabel, low, high);
      var placeholders := Zeros(2 * count);
      assert (header + placeholders)[2..6] == header[2..6] && (header + placeholders)[6..10] == header[6..10];
      Ok((header + placeholders, TableLabels(defaultLabel, low, high, labels)))
  }

  // ---------------------------------------------------------------- label patching

  /**
   * The code offset a label designates: the bytes of the instructions before the
   * instruction it marks. The source reads `labels[l]` and the instruction list
   * by index, so a label outside either list has no offset.
   */
  function LabelTarget(labels: seq<int>, code: seq<Instruction>, l: int): Option<int>
  {
    if 0 <= l < |labels| && labels[l] <= |code| then
      Some(SizeBefore(code, if labels[l] < 0 then 0 else labels[l]))
    else None
  }

  /** Whether every label of `ls` designates an offset. */
  predicate AllResolve(labels: seq<int>, code: seq<Instruction>, ls: seq<int>)
  {
    forall k :: 0 <= k < |ls| ==> LabelTarget(labels, code, ls[k]).Some?
  }

  /** The offsets of the labels `ls`, relative to `methodOffset`. */
  function Offsets(labels: seq<int>, code: seq<Instruction>, methodOffset: int, ls: seq<int>): (r: seq<int>)
    requires AllResolve(labels, code, ls)
    ensures |r| == |ls|
  {
    seq(|ls|, k requires 0 <= k < |ls| => LabelTarget(labels, code, ls[k]).value - methodOffset)
  }

  /** Resolving one more label appends its offset. */
  lemma OffsetsSnoc(labels: seq<int>, code: seq<Instruction>, methodOffset: int, ls: seq<int>, k: int)
    requires 0 <= k < |ls| && AllResolve(labels, code, ls[..k]) && LabelTarget(labels, code, ls[k]).Some?
    ensures AllResolve(labels, code, ls[..k + 1])
    ensures Offsets(labels, code, methodOffset, ls[..k + 1]) ==
            Offsets(labels, code, methodOffset, ls[..k]) + [LabelTarget(labels, code, ls[k]).value - methodOffset]
  {
    assert forall j :: 0 <= j < k ==> ls[..k + 1][j] == ls[..k][j];
  }

  /** Overwrite two bytes at `i` with a 16-bit value, high byte first. */
  function Put16(s: seq<int>, i: int, v: int): (r: seq<int>)
    requires 0 <= i && i + 2 <= |s|
    ensures |r| == |s| && r[i..i + 2] == BigEndian16(v)
    ensures forall j :: 0 <= j < |s| && j != i && j != i + 1 ==> r[j] == s[j]
  {
    s[i := BigEndian16(v)[0]][i + 1 := BigEndian16(v)[1]]
  }

  /** The position of slot `k`: `base`, then every `stride` bytes. */
  function Slot(base: int, stride: int, k: nat): int
  {
    if k == 0 then base else Slot(base, stride, k - 1) + stride
  }

  /** Slot `k` sits `stride * k` bytes after the base. */
  lemma {:induction false} SlotValue(base: int, stride: int, k: nat)
    ensures Slot(base, stride, k) == base + stride * k
  {
    if k > 0 {
      SlotValue(base, stride, k - 1);
    }
  }

  /** Slots `k < n` lie at least `stride` bytes below slot `n`. */
  lemma {:induction false} SlotsBelow(base: int, stride: int, k: nat, n: nat)
    requires 0 <= stride && k < n
    ensures Slot(base, stride, k) + stride <= Slot(base, stride, n)
    decreases n
  {
    if k < n - 1 {
      SlotsBelow(base, stride, k, n - 1);
    }
  }

  /** Whether slots `0 .. count-1` fit in `n` bytes, two bytes each, without overlapping. */
  predicate SlotsFit(n: int, base: int, stride: int, count: nat)
  {
    0 <= base && 2 <= stride && (count == 0 || Slot(base, stride, count - 1) + 2 <= n)
  }

  /** Slots fit when the one after the last starts at most `stride - 2` bytes past the end. */
  lemma SlotsFitOf(n: int, base: int, stride: int, count: nat)
    requires 0 <= base && 2 <= stride && base + stride * count <= n + stride - 2
    ensures SlotsFit(n, base, stride, count)
  {
    if count > 0 {
      SlotValue(base, stride, count - 1);
      assert stride * count == stride * (count - 1) + stride;
    }
  }

  /** Every slot `k < count` lies inside the bytes. */
  lemma SlotInside(n: int, base: int, stride: int, count: nat, k: nat)
    requires SlotsFit(n, base, stride, count) && k < count
    ensures base <= Slot(base, stride, k) && Slot(base, stride, k) + 2 <= n
    ensures SlotsFit(n, base, stride, k)
  {
    if k < count - 1 {
      SlotsBelow(base, stride, k, count - 1);
    }
    if k > 0 {
      SlotsBelow(base, stride, k - 1, k);
    }
    if k > 0 {
      SlotsBelow(base, stride, 0, k);
    }
  }

  /** Overwrite slot `k` with `vs[k]` for every `k`. */
  function PatchSlots(s: seq<int>, base: int, stride: int, vs: seq<int>): (r: seq<int>)
    requires SlotsFit(|s|, base, stride, |vs|)
    ensures |r| == |s|
  {
    if vs == [] then s
    else
      SlotInside(|s|, base, stride, |vs|, |vs| - 1);
      Put16(PatchSlots(s, base, stride, vs[..|vs| - 1]), Slot(base, stride, |vs| - 1), vs[|vs| - 1])
  }

  /** Patching one more slot writes its value over the earlier patches. */
  lemma PatchSlotsSnoc(s: seq<int>, base: int, stride: int, vs: seq<int>, v: int)
    requires SlotsFit(|s|, base, stride, |vs| + 1)
    ensures SlotsFit(|s|, base, stride, |vs|)
    ensures base <= Slot(base, stride, |vs|) && Slot(base, stride, |vs|) + 2 <= |s|
    ensures PatchSlots(s, base, stride, vs + [v]) == Put16(PatchSlots(s, base, stride, vs), Slot(base, stride, |vs|), v)
  {
    SlotInside(|s|, base, stride, |vs| + 1, |vs|);
    assert (vs + [v])[..|vs|] == vs;
  }

  /** After patching, slot `k` holds `vs[k]`. */
  lemma {:induction false} PatchSlotsAt(s: seq<int>, base: int, stride: int, vs: seq<int>, k: nat)
    requires SlotsFit(|s|, base, stride, |vs|) && k < |vs|
    ensures base <= Slot(base, stride, k) && Slot(base, stride, k) + 2 <= |s|
    ensures PatchSlots(s, base, stride, vs)[Slot(base, stride, k)..Slot(base, stride, k) + 2] == BigEndian16(vs[k])
    decreases |vs|
  {
    SlotInside(|s|, base, stride, |vs|, k);
    var n := |vs| - 1;
    if k < n {
      SlotInside(|s|, base, stride, |vs|, n);
      PatchSlotsAt(s, base, stride, vs[..n], k);
      SlotsBelow(base, stride, k, n);
      assert vs[..n][k] == vs[k];
    }
  }

  /** Patching leaves every byte outside the slots as it was. */
  lemma {:induction false} PatchSlotsElsewhere(s: seq<int>, base: int, stride: int, vs: seq<int>, j: int)
    requires SlotsFit(|s|, base, stride, |vs|) && 0 <= j < |s|
    requires forall k: nat :: k < |vs| ==> j != Slot(base, stride, k) && j != Slot(base, stride, k) + 1
    ensures PatchSlots(s, base, stride, vs)[j] == s[j]
    decreases |vs|
  {
    if vs != [] {
      SlotInside(|s|, base, stride, |vs|, |vs| - 1);
      PatchSlotsElsewhere(s, base, stride, vs[..|vs| - 1], j);
    }
  }

  /**
   * One summing loop of `updateLabels`: the sizes of the instructions before the one
   * label `l` marks, less `methodOffset`; fails where the source indexes out of bounds.
   */
  method LabelOffset(labels: seq<int>, code: seq<Instruction>, l: int, methodOffset: int)
    returns (ok: bool, value: int)
    ensures ok <==> LabelTarget(labels, code, l).Some?
    ensures ok ==> value == LabelTarget(labels, code, l).value - methodOffset
  {
    if l < 0 || l >= |labels| || labels[l] > |code| {
      return false, 0;
    }
    var labelValue := 0;
    var foo := 0;
    while foo < labels[l]
      invariant 0 <= foo <= (if labels[l] < 0 then 0 else labels[l])
      invariant labelValue == SizeBefore(code, foo)
    {
      labelValue := labelValue + InstructionSize(code[foo]);
      foo := foo + 1;
    }
    return true, labelValue - methodOffset;
  }

  /** `params.set(i, (byte)(v >> 8)); params.set(i + 1, (byte)v)`. */
  method Write16(params: array<int>, i: int, v: int)
    requires 0 <= i && i + 2 <= params.Length
    modifies params
    ensures params[..] == Put16(old(params[..]), i, v)
  {
    params[i], params[i + 1] := BigEndian16(v)[0], BigEndian16(v)[1];
  }

  /**
   * The offset computations of an `updateLabels` loop, label by label in order,
   * stopping at the first label without an offset.
   */
  method ResolveOffsets(ls: seq<int>, labels: seq<int>, code: seq<Instruction>, methodOffset: int)
    returns (ok: bool, vs: seq<int>)
    ensures ok <==> AllResolve(labels, code, ls)
    ensures ok ==> vs == Offsets(labels, code, methodOffset, ls)
  {
    vs := [];
    var k := 0;
    while k < |ls|
      invariant 0 <= k <= |ls|
      invariant AllResolve(labels, code, ls[..k]) && vs == Offsets(labels, code, methodOffset, ls[..k])
    {
      var good, labelValue := LabelOffset(labels, code, ls[k], methodOffset);
      if !good {
        return false, vs;
      }
      OffsetsSnoc(labels, code, methodOffset, ls, k);
      vs := vs + [labelValue];
      k := k + 1;
    }
    assert ls[..k] == ls;
    return true, vs;
  }

  /** Writing offset `k` at slot `k` after the first `k` offsets gives the first `k + 1` written. */
  lemma PatchStep(start: seq<int>, base: int, stride: int, vs: seq<int>, k: int)
    requires 0 <= k < |vs| && SlotsFit(|start|, base, stride, |vs|)
    ensures SlotsFit(|start|, base, stride, k) && SlotsFit(|start|, base, stride, k + 1)
    ensures base <= Slot(base, stride, k) && Slot(base, stride, k) + 2 <= |start|
    ensures Put16(PatchSlots(start, base, stride, vs[..k]), Slot(base, stride, k), vs[k])
              == PatchSlots(start, base, stride, vs[..k + 1])
  {
    SlotInside(|start|, base, stride, |vs|, k);
    PatchSlotsSnoc(start, base, stride, vs[..k], vs[k]);
    assert vs[..k] + [vs[k]] == vs[..k + 1];
    if k + 1 < |vs| {
      SlotInside(|start|, base, stride, |vs|, k + 1);
    }
  }

  /** The writes of an `updateLabels` loop: offset `k` at slot `k`, high byte first. */
  method WriteSlots(params: array<int>, base: int, stride: int, vs: seq<int>)
    requires SlotsFit(params.Length, base, stride, |vs|)
    modifies params
    ensures params[..] == PatchSlots(old(params[..]), base, stride, vs)
  {
    ghost var start := params[..];
    var index := base;
    var k := 0;
    while k < |vs|
      invariant 0 <= k <= |vs| && index == Slot(base, stride, k)
      invariant |start| == params.Length && SlotsFit(|start|, base, stride, k)
      invariant params[..] == PatchSlots(start, base, stride, vs[..k])
    {
      PatchStep(start, base, stride, vs, k);
      Write16(params, index, vs[k]);
      k := k + 1;
      index := index + stride;
    }
    assert vs[..k] == vs;
  }

  /**
   * The shared loop of both `updateLabels`: resolves `ls` in order and writes the
   * k-th offset at slot `k`; fails at the first label without an offset.
   */
  method PatchLabels(params: array<int>, base: int, stride: int, ls: seq<int>,
                     labels: seq<int>, code: seq<Instruction>, methodOffset: int)
    returns (ok: bool)
    requires SlotsFit(params.Length, base, stride, |ls|)
    modifies params
    ensures ok <==> AllResolve(labels, code, ls)
    ensures ok ==> params[..] == PatchSlots(old(params[..]), base, stride, Offsets(labels, code, methodOffset, ls))
  {
    var vs;
    ok, vs := ResolveOffsets(ls, labels, code, methodOffset);
    if ok {
      WriteSlots(params, base, stride, vs);
    }
  }

  /** The bytes of an `slookupswitch` once the default offset `d` and each entry's offset `vs[k]` are written. */
  function LookupPatched(s: seq<int>, d: int, vs: seq<int>): (r: seq<int>)
    requires |s| >= 4 + 4 * |vs|
    ensures |r| == |s|
  {
    SlotsFitOf(|s|, 6, 4, |vs|);
    PatchSlots(Put16(s, 0, d), 6, 4, vs)
  }

  /** The bytes of an `itableswitch` once the default offset `d` and each case's offset `vs[k]` are written. */
  function TablePatched(s: seq<int>, d: int, vs: seq<int>): (r: seq<int>)
    requires |s| >= 10 + 2 * |vs|
    ensures |r| == |s|
  {
    SlotsFitOf(|s|, 10, 2, |vs|);
    PatchSlots(Put16(s, 0, d), 10, 2, vs)
  }

  /**
   * `SLOOKUPSWITCH.updateLabels`: writes the default label's offset at bytes 0..1 and,
   * walking the ordered map, the k-th entry's label offset at bytes 6+4k..7+4k.
   */
  method UpdateLookupLabels(params: array<int>, defaultLabel: int, pairs: seq<(int, int)>,
                            labels: seq<int>, code: seq<Instruction>, methodOffset: int)
    returns (ok: bool)
    requires params.Length >= 4 + 4 * |pairs|
    modifies params
    ensures ok <==> LabelTarget(labels, code, defaultLabel).Some? && AllResolve(labels, code, PairLabels(pairs))
    ensures ok ==> params[..] == LookupPatched(old(params[..]),
                                    LabelTarget(labels, code, defaultLabel).value - methodOffset,
                                    Offsets(labels, code, methodOffset, PairLabels(pairs)))
  {
    var good, v := LabelOffset(labels, code, defaultLabel, methodOffset);
    if !good {
      return false;
    }
    Write16(params, 0, v);
    SlotsFitOf(params.Length, 6, 4, |pairs|);
    ok := PatchLabels(params, 6, 4, PairLabels(pairs), labels, code, methodOffset);
  }

  /** The label of each map entry, in iteration order. */
  function PairLabels(pairs: seq<(int, int)>): (r: seq<int>)
    ensures |r| == |pairs| && forall k :: 0 <= k < |pairs| ==> r[k] == pairs[k].1
  {
    seq(|pairs|, k requires 0 <= k < |pairs| => pairs[k].1)
  }

  /**
   * `ITABLESWITCH.updateLabels`: writes the default label's offset at bytes 0..1 and
   * the k-th case label's offset at bytes 10+2k..11+2k.
   */
  method UpdateTableLabels(params: array<int>, defaultLabel: int, caseLabels: seq<int>,
                           labels: seq<int>, code: seq<Instruction>, methodOffset: int)
    returns (ok: bool)
    requires params.Length >= 10 + 2 * |caseLabels|
    modifies params
    ensures ok <==> LabelTarget(labels, code, defaultLabel).Some? && AllResolve(labels, code, caseLabels)
    ensures ok ==> params[..] == TablePatched(old(params[..]),
                                    LabelTarget(labels, code, defaultLabel).value - methodOffset,
                                    Offsets(labels, code, methodOffset, caseLabels))
  {
    var good, v := LabelOffset(labels, code, defaultLabel, methodOffset);
    if !good {
      return false;
    }
    Write16(params, 0, v);
    SlotsFitOf(params.Length, 10, 2, |caseLabels|);
    ok := PatchLabels(params, 10, 2, caseLabels, labels, code, methodOffset);
  }

  /**
   * Generation and patching of an `slookupswitch` agree: with strictly increasing
   * match values, the k-th pair's match bytes are followed by the offset of the
   * k-th pair's own label, the default offset comes first and the pair count is kept.
   */
  lemma LookupSwitchSlotsAgree(s: seq<int>, pairs: seq<(int, int)>, d: int,
                               labels: seq<int>, code: seq<Instruction>, methodOffset: int, k: int)
    requires |s| == 4 + 4 * |pairs| && s[4..] == PairBytes(pairs)
    requires forall i, j :: 0 <= i < j < |pairs| ==> pairs[i].0 < pairs[j].0
    requires AllResolve(labels, code, PairLabels(PairMap(pairs)))
    requires 0 <= k < |pairs|
    ensures PairLabels(PairMap(pairs)) == PairLabels(pairs)
    ensures var r := LookupPatched(s, d, Offsets(labels, code, methodOffset, PairLabels(PairMap(pairs))));
      r[..2] == BigEndian16(d) && r[2..4] == s[2..4]
      && r[4 + 4 * k..6 + 4 * k] == BigEndian16(pairs[k].0)
      && r[6 + 4 * k..8 + 4 * k] == BigEndian16(LabelTarget(labels, code, pairs[k].1).value - methodOffset)
  {
    PairMapInOrder(pairs);
    var ls := PairLabels(PairMap(pairs));
    var vs := Offsets(labels, code, methodOffset, ls);
    LookupPatchedAt(s, d, vs, k);
    assert ls[k] == pairs[k].1;
    var t := LabelTarget(labels, code, pairs[k].1).value - methodOffset;
    assert vs[k] == LabelTarget(labels, code, ls[k]).value - methodOffset == t;
    var r := LookupPatched(s, d, vs);
    assert r[6 + 4 * k..8 + 4 * k] == BigEndian16(t);
    PairMatchBytes(s, pairs, k);
  }

  /** In the generated bytes, pair `k`'s match value sits at bytes 4+4k..5+4k. */
  lemma PairMatchBytes(s: seq<int>, pairs: seq<(int, int)>, k: int)
    requires |s| == 4 + 4 * |pairs| && s[4..] == PairBytes(pairs) && 0 <= k < |pairs|
    ensures s[4 + 4 * k..6 + 4 * k] == BigEndian16(pairs[k].0)
  {
    PairBytesLayout(pairs, k);
    var pb := s[4..];
    assert s[4 + 4 * k..6 + 4 * k] == pb[4 * k..4 * k + 4][..2];
  }

  /** What patching an `slookupswitch` leaves in its header and in the k-th pair. */
  lemma LookupPatchedAt(s: seq<int>, d: int, vs: seq<int>, k: int)
    requires |s| == 4 + 4 * |vs| && 0 <= k < |vs|
    ensures var r := LookupPatched(s, d, vs);
      r[..2] == BigEndian16(d) && r[2..4] == s[2..4]
      && r[4 + 4 * k..6 + 4 * k] == s[4 + 4 * k..6 + 4 * k]
      && r[6 + 4 * k..8 + 4 * k] == BigEndian16(vs[k])
  {
    LookupHeaderPatched(s, d, vs);
    LookupPairPatched(s, d, vs, k);
  }

  /** Patching an `slookupswitch` writes the default offset and keeps the pair count. */
  lemma LookupHeaderPatched(s: seq<int>, d: int, vs: seq<int>)
    requires |s| == 4 + 4 * |vs|
    ensures var r := LookupPatched(s, d, vs); r[..2] == BigEndian16(d) && r[2..4] == s[2..4]
  {
    var start := Put16(s, 0, d);
    SlotsFitOf(|start|, 6, 4, |vs|);
    var r := PatchSlots(start, 6, 4, vs);
    forall j | 0 <= j < 4 ensures r[j] == start[j] {
      forall m: nat | m < |vs|
        ensures j != Slot(6, 4, m) && j != Slot(6, 4, m) + 1
      {
        SlotValue(6, 4, m);
      }
      PatchSlotsElsewhere(start, 6, 4, vs, j);
    }
    assert r[2..4] == [r[2], r[3]] && s[2..4] == [s[2], s[3]];
    assert r[..2] == [r[0], r[1]] && start[..2] == [start[0], start[1]];
  }

  /** Patching an `slookupswitch` keeps pair `k`'s match value and writes its offset. */
  lemma LookupPairPatched(s: seq<int>, d: int, vs: seq<int>, k: int)
    requires |s| == 4 + 4 * |vs| && 0 <= k < |vs|
    ensures var r := LookupPatched(s, d, vs);
      && r[4 + 4 * k..6 + 4 * k] == s[4 + 4 * k..6 + 4 * k]
      && r[6 + 4 * k..8 + 4 * k] == BigEndian16(vs[k])
  {
    var start := Put16(s, 0, d);
    SlotsFitOf(|start|, 6, 4, |vs|);
    var r := PatchSlots(start, 6, 4, vs);
    PatchSlotsAt(start, 6, 4, vs, k);
    SlotValue(6, 4, k);
    var p := 4 + 4 * k;
    LookupMatchKept(start, vs, k, p);
    LookupMatchKept(start, vs, k, p + 1);
    assert r[p..p + 2] == [r[p], r[p + 1]] && s[p..p + 2] == [s[p], s[p + 1]];
    assert r[6 + 4 * k..8 + 4 * k] == r[6 + 4 * k..6 + 4 * k + 2];
  }

  /** The match bytes of pair `k` lie outside every label slot. */
  lemma LookupMatchKept(start: seq<int>, vs: seq<int>, k: int, j: int)
    requires |start| == 4 + 4 * |vs|
    requires 0 <= k < |vs| && (j == 4 + 4 * k || j == 5 + 4 * k)
    ensures SlotsFit(|start|, 6, 4, |vs|) && PatchSlots(start, 6, 4, vs)[j] == start[j]
  {
    SlotsFitOf(|start|, 6, 4, |vs|);
    forall m: nat | m < |vs|
      ensures j != Slot(6, 4, m) && j != Slot(6, 4, m) + 1
    {
      SlotValue(6, 4, m);
      if m < k {
        assert 7 + 4 * m <= 3 + 4 * k;
      }
    }
    PatchSlotsElsewhere(start, 6, 4, vs, j);
  }

  /**
   * Generation and patching of an `itableswitch` agree: low and high are kept,
   * the default offset comes first and case k's offset sits at bytes 10+2k..11+2k.
   */
  lemma TableSwitchSlotsAgree(s: seq<int>, caseLabels: seq<int>, d: int,
                              labels: seq<int>, code: seq<Instruction>, methodOffset: int, k: int)
    requires |s| == 10 + 2 * |caseLabels|
    requires AllResolve(labels, code, caseLabels)
    requires 0 <= k < |caseLabels|
    ensures var r := TablePatched(s, d, Offsets(labels, code, methodOffset, caseLabels));
      r[..2] == BigEndian16(d) && r[2..10] == s[2..10]
      && r[10 + 2 * k..12 + 2 * k] == BigEndian16(LabelTarget(labels, code, caseLabels[k]).value - methodOffset)
  {
    var vs := Offsets(labels, code, methodOffset, caseLabels);
    var start := Put16(s, 0, d);
    SlotsFitOf(|start|, 10, 2, |vs|);
    var r := PatchSlots(start, 10, 2, vs);
    PatchSlotsAt(start, 10, 2, vs, k);
    SlotValue(10, 2, k);
    PatchSlotsHead(start, 10, 2, vs);
    assert TablePatched(s, d, vs) == r;
    assert vs[k] == LabelTarget(labels, code, caseLabels[k]).value - methodOffset;
    assert r[..2] == r[..10][..2] && r[2..10] == r[..10][2..];
    assert start[..2] == start[..10][..2] && start[2..10] == start[..10][2..];
    assert start[2..10] == s[2..10];
  }

  /** Patching the slots leaves the bytes before the first slot as they were. */
  lemma {:induction false} PatchSlotsHead(s: seq<int>, base: int, stride: int, vs: seq<int>)
    requires SlotsFit(|s|, base, stride, |vs|) && base <= |s|
    ensures PatchSlots(s, base, stride, vs)[..base] == s[..base]
    decreases |vs|
  {
    if vs != [] {
      var n := |vs| - 1;
      SlotInside(|s|, base, stride, |vs|, n);
      PatchSlotsHead(s, base, stride, vs[..n]);
      var p := PatchSlots(s, base, stride, vs[..n]);
      var r := Put16(p, Slot(base, stride, n), vs[n]);
      assert r[..base] == p[..base];
    }
  }
}
