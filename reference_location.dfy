/**
 * The reference location component (section 6.11 of the Java Card 2.1 Virtual
 * Machine Specification): the offsets, in the method component's info items, of
 * every 1-byte and every 2-byte constant pool index, each list delta-encoded in
 * bytes. A loader reads an entry 255 as "255 bytes further, no index yet" and any
 * other entry `b` as "an index `b` bytes further".
 */
module ReferenceLocation {
  import opened Bytes

  /** Java's `(short) v`, as the signed value a `short` variable holds. */
  function JavaShort(v: int): int
  {
    SignedShort(ToShort(v))
  }

  /** The distance `shortArray2ByteArray` encodes for entry `i`: the first offset itself, then the 16-bit difference from the previous one. */
  function Delta(offsets: seq<int>, i: int): int
    requires 0 <= i < |offsets|
  {
    if i == 0 then JavaShort(offsets[0]) else JavaShort(JavaShort(offsets[i]) - JavaShort(offsets[i - 1]))
  }

  // ---------------------------------------------------------------- splitting a distance

  /** The bytes of one distance as the source splits it: 255 while more than 255 remains, then the rest. */
  function ChunksAsWritten(d: int): seq<int>
    decreases d
  {
    if d > 255 then [255] + ChunksAsWritten(d - 255) else [ToByte(d)]
  }

  /** The bytes of one distance as the format reads them: 255 while at least 255 remains, then the rest, below 255. */
  function Chunks(d: int): seq<int>
    decreases d
  {
    if d >= 255 then [255] + Chunks(d - 255) else [ToByte(d)]
  }

  function Sum(s: seq<int>): int
  {
    if s == [] then 0 else Sum(s[..|s| - 1]) + s[|s| - 1]
  }

  lemma {:induction false} SumAppend(a: seq<int>, b: seq<int>)
    ensures Sum(a + b) == Sum(a) + Sum(b)
  {
    if b != [] {
      assert (a + b)[..|a + b| - 1] == a + b[..|b| - 1];
      SumAppend(a, b[..|b| - 1]);
    } else {
      assert a + b == a;
    }
  }

  /** As written, a distance above 255 becomes 255-bytes and a last byte of at most 255. */
  lemma {:induction false} ChunksAsWrittenMeaning(d: int)
    ensures var c := ChunksAsWritten(d);
            && |c| >= 1 && AllBytes(c)
            && (forall j :: 0 <= j < |c| - 1 ==> c[j] == 255)
            && (d > 255 ==> c[0] == 255)
    decreases d
  {
    if d > 255 {
      var rest := ChunksAsWritten(d - 255);
      ChunksAsWrittenMeaning(d - 255);
      assert ChunksAsWritten(d) == [255] + rest;
    }
  }

  /** As written, a non-negative distance is the sum of its bytes. */
  lemma {:induction false} ChunksAsWrittenSum(d: int)
    requires d >= 0
    ensures Sum(ChunksAsWritten(d)) == d
    decreases d
  {
    if d > 255 {
      ChunksAsWrittenSum(d - 255);
      SumAppend([255], ChunksAsWritten(d - 255));
    }
  }

  /**
   * A distance of at least 255 becomes 255-bytes and a last byte below 255, so only
   * the last byte of a non-negative distance marks an index.
   */
  lemma {:induction false} ChunksMeaning(d: int)
    ensures var c := Chunks(d);
            && |c| >= 1 && AllBytes(c)
            && (forall j :: 0 <= j < |c| - 1 ==> c[j] == 255)
            && (d >= 0 ==> c[|c| - 1] < 255)
    decreases d
  {
    if d >= 255 {
      var rest := Chunks(d - 255);
      ChunksMeaning(d - 255);
      assert Chunks(d) == [255] + rest;
    }
  }

  /** A non-negative distance is the sum of its bytes. */
  lemma {:induction false} ChunksSum(d: int)
    requires d >= 0
    ensures Sum(Chunks(d)) == d
    decreases d
  {
    if d >= 255 {
      ChunksSum(d - 255);
      SumAppend([255], Chunks(d - 255));
    }
  }

  // ---------------------------------------------------------------- encoding a list

  /** `shortArray2ByteArray` as written, over the first `n` offsets. */
  function EncodeAsWritten(offsets: seq<int>, n: int): seq<int>
    requires 0 <= n <= |offsets|
  {
    if n == 0 then [] else EncodeAsWritten(offsets, n - 1) + ChunksAsWritten(Delta(offsets, n - 1))
  }

  /** `shortArray2ByteArray` with each distance split as the format reads it, over the first `n` offsets. */
  function Encode(offsets: seq<int>, n: int): seq<int>
    requires 0 <= n <= |offsets|
  {
    if n == 0 then [] else Encode(offsets, n - 1) + Chunks(Delta(offsets, n - 1))
  }

  /** Offsets a method component can hold, listed in code order: 16-bit, non-negative and non-decreasing. */
  predicate Ordered(offsets: seq<int>)
  {
    && (forall i :: 0 <= i < |offsets| ==> 0 <= offsets[i] < 32768)
    && (forall i, j :: 0 <= i < j < |offsets| ==> offsets[i] <= offsets[j])
  }

  /** For ordered offsets a distance is the plain difference. */
  lemma DeltaOrdered(offsets: seq<int>, i: int)
    requires Ordered(offsets) && 0 <= i < |offsets|
    ensures Delta(offsets, i) == if i == 0 then offsets[0] else offsets[i] - offsets[i - 1]
  {
  }

  /**
   * Both encodings take at least one byte per offset, and for ordered offsets the
   * running sum of the bytes emitted for the first `n` offsets is the `n`th offset.
   */
  lemma {:induction false} EncodeSums(offsets: seq<int>, n: int)
    requires 0 <= n <= |offsets|
    ensures |Encode(offsets, n)| >= n && |EncodeAsWritten(offsets, n)| >= n
    ensures AllBytes(Encode(offsets, n)) && AllBytes(EncodeAsWritten(offsets, n))
    ensures Ordered(offsets) && n > 0 ==> Sum(Encode(offsets, n)) == offsets[n - 1]
    ensures Ordered(offsets) && n > 0 ==> Sum(EncodeAsWritten(offsets, n)) == offsets[n - 1]
  {
    if n > 0 {
      EncodeSums(offsets, n - 1);
      var d := Delta(offsets, n - 1);
      ChunksMeaning(d);
      ChunksAsWrittenMeaning(d);
      if Ordered(offsets) {
        DeltaOrdered(offsets, n - 1);
        ChunksSum(d);
        ChunksAsWrittenSum(d);
        SumAppend(Encode(offsets, n - 1), Chunks(d));
        SumAppend(EncodeAsWritten(offsets, n - 1), ChunksAsWritten(d));
      }
    }
  }

  // ---------------------------------------------------------------- decoding

  /** A loader's reading of the bytes, `at` bytes into the method component: every byte but 255 marks an index. */
  function Decode(bytes: seq<int>, at: int): seq<int>
  {
    if bytes == [] then []
    else if bytes[0] == 255 then Decode(bytes[1..], at + 255)
    else [at + bytes[0]] + Decode(bytes[1..], at + bytes[0])
  }

  lemma {:induction false} DecodeAppend(a: seq<int>, b: seq<int>, at: int)
    ensures Decode(a + b, at) == Decode(a, at) + Decode(b, at + Sum(a))
  {
    if a == [] {
      assert a + b == b;
    } else {
      assert (a + b)[1..] == a[1..] + b;
      DecodeAppend(a[1..], b, at + a[0]);
      assert a == [a[0]] + a[1..];
      SumAppend([a[0]], a[1..]);
    }
  }

  /** One non-negative distance, split as the format reads it, is read back as one index. */
  lemma {:induction false} DecodeChunks(d: int, at: int)
    requires d >= 0
    ensures Decode(Chunks(d), at) == [at + d]
    decreases d
  {
    if d >= 255 {
      DecodeChunks(d - 255, at + 255);
      assert ([255] + Chunks(d - 255))[1..] == Chunks(d - 255);
    }
  }

  /** A loader reads ordered offsets back exactly from their encoding. */
  lemma {:induction false} DecodeEncode(offsets: seq<int>, n: int)
    requires Ordered(offsets) && 0 <= n <= |offsets|
    ensures Decode(Encode(offsets, n), 0) == offsets[..n]
  {
    if n > 0 {
      var d := Delta(offsets, n - 1);
      var prev := Encode(offsets, n - 1);
      assert Encode(offsets, n) == prev + Chunks(d);
      DecodeEncode(offsets, n - 1);
      var at := Sum(prev);
      if n > 1 {
        EncodeSums(offsets, n - 1);
        assert at == offsets[n - 2] <= offsets[n - 1];
      } else {
        assert at == 0;
      }
      DeltaOrdered(offsets, n - 1);
      DecodeSnoc(prev, d, offsets[..n - 1], offsets[n - 1]);
      PrefixSnoc(offsets, n);
    }
  }

  /** Appending the bytes of one more non-negative distance appends one more index. */
  lemma DecodeSnoc(prev: seq<int>, d: int, indices: seq<int>, index: int)
    requires Decode(prev, 0) == indices && d >= 0 && Sum(prev) + d == index
    ensures Decode(prev + Chunks(d), 0) == indices + [index]
  {
    DecodeAppend(prev, Chunks(d), 0);
    DecodeChunks(d, Sum(prev));
  }

  lemma PrefixSnoc(s: seq<int>, n: int)
    requires 0 < n <= |s|
    ensures s[..n] == s[..n - 1] + [s[n - 1]]
  {
  }

  /** As written, a single index 255 bytes into the code is encoded as one 255 byte, which a loader reads as no index at all. */
  lemma DistanceOf255AsWritten()
    ensures EncodeAsWritten([255], 1) == [255]
    ensures Decode(EncodeAsWritten([255], 1), 0) == []
  {
    assert Delta([255], 0) == 255;
    assert ChunksAsWritten(255) == [255];
  }

  /** The same offset, split as the format reads it, is encoded as 255 then 0 and read back. */
  lemma DistanceOf255()
    ensures Encode([255], 1) == [255, 0]
    ensures Decode(Encode([255], 1), 0) == [255]
  {
    assert Delta([255], 0) == 255;
    assert Chunks(0) == [0];
    assert Chunks(255) == [255, 0];
    assert [255, 0][1..] == [0];
  }

  // ---------------------------------------------------------------- the component

  /** `shortArray2ByteArray`: each offset's distance from the previous one, split into bytes by a counting-down loop. */
  method ShortArrayToByteArray(offsets: seq<int>) returns (out: seq<int>)
    ensures out == Encode(offsets, |offsets|)
  {
    out := [];
    var i := 0;
    while i < |offsets|
      invariant 0 <= i <= |offsets| && out == Encode(offsets, i)
    {
      var offset;
      if i == 0 {
        offset := JavaShort(offsets[i]);
      } else {
        offset := JavaShort(JavaShort(offsets[i]) - JavaShort(offsets[i - 1]));
      }
      ghost var target := Encode(offsets, i + 1);
      while offset >= 255
        invariant out + Chunks(offset) == target
        decreases offset
      {
        out := out + [255];
        offset := offset - 255;
      }
      out := out + [ToByte(offset)];
      i := i + 1;
    }
  }

  /** `computeComponentSize` over the two counts: two count shorts and one byte per entry. */
  function ComponentSize(byteIndexCount: int, byte2IndexCount: int): int
  {
    ToShort(2 + SignedShort(ToShort(byteIndexCount)) + 2 + SignedShort(ToShort(byte2IndexCount)))
  }

  /**
   * The component's size is the four count bytes and every entry whenever it fits in
   * 16 bits, even when a count alone reads as a negative short.
   */
  lemma ComponentSizeMeaning(a: int, b: int)
    requires 0 <= a && 0 <= b && 4 + a + b < 65536
    ensures ComponentSize(ToShort(a), ToShort(b)) == 4 + a + b
  {
    var x, y := SignedShort(ToShort(a)), SignedShort(ToShort(b));
    assert x == a || x == a - 65536;
    assert y == b || y == b - 65536;
  }

  /** The reference location component of a method component's 1-byte and 2-byte index offsets. */
  class ReferenceLocationComponent {
    var byteIndexCount: int
    var offsetsToByteIndices: seq<int>
    var byte2IndexCount: int
    var offsetsToByte2Indices: seq<int>
    var size: int

    /** The constructor: both lists encoded, their lengths as 16-bit counts, and the size. */
    constructor (oneByte: seq<int>, twoByte: seq<int>)
      ensures offsetsToByteIndices == Encode(oneByte, |oneByte|)
      ensures offsetsToByte2Indices == Encode(twoByte, |twoByte|)
      ensures byteIndexCount == ToShort(|offsetsToByteIndices|)
      ensures byte2IndexCount == ToShort(|offsetsToByte2Indices|)
      ensures size == ComponentSize(byteIndexCount, byte2IndexCount)
    {
      var a := ShortArrayToByteArray(oneByte);
      byteIndexCount := ToShort(|a|);
      offsetsToByteIndices := a;
      var b := ShortArrayToByteArray(twoByte);
      byte2IndexCount := ToShort(|b|);
      offsetsToByte2Indices := b;
      size := ComponentSize(ToShort(|a|), ToShort(|b|));
    }
  }
}
