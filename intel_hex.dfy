/**
 * The Intel HEX writer of the flash filesystem: an extended linear address record,
 * data records of at most 16 bytes, and the end-of-file record, each line carrying
 * the two's complement of its byte sum.
 */
module IntelHex {
  import opened Wrappers
  import opened Bytes

  const IHEX_DATA := 0x00
  const IHEX_EOF := 0x01
  const IHEX_EXTENDED_LINEAR_ADDRESS := 0x04
  const IHEX_LINE_LENGTH := 0x10

  // ---------------------------------------------------------------- records and lines

  /** One record: its type, its 16-bit load offset and its data bytes. */
  datatype Record = Record(kind: int, address: int, data: seq<int>)

  predicate WellFormed(r: Record)
  {
    IsByte(r.kind) && 0 <= r.address < 0x1_0000 && |r.data| < 256 && AllBytes(r.data)
  }

  /** An extended linear address record: the upper 16 bits of the addresses that follow. */
  function ExtRecord(upper: int): Record
  {
    Record(IHEX_EXTENDED_LINEAR_ADDRESS, 0, BigEndian16(upper))
  }

  function EofRecord(): Record
  {
    Record(IHEX_EOF, 0, [])
  }

  function Sum(s: seq<int>): int
  {
    if s == [] then 0 else Sum(s[..|s| - 1]) + s[|s| - 1]
  }

  /** The bytes of a record line before its checksum: length, address (high byte first), type, data. */
  function RecordBytes(r: Record): seq<int>
  {
    [ToByte(|r.data|), ToByte(r.address / 256), ToByte(r.address), ToByte(r.kind)] + r.data
  }

  /** `(byte) (~sum + 1)`: the byte that brings the sum of a line's bytes to 0 modulo 256. */
  function Checksum(bs: seq<int>): (c: int)
    ensures IsByte(c) && (Sum(bs) + c) % 256 == 0
  {
    ToByte(-Sum(bs))
  }

  /** Bytes as upper-case hexadecimal digit pairs. */
  function HexBytes(bs: seq<int>): (s: string)
    ensures |s| == 2 * |bs|
  {
    if bs == [] then "" else Hex2(ToByte(bs[0])) + HexBytes(bs[1..])
  }

  /** Reading digit pairs back as bytes. */
  function ReadHex(s: string): (bs: seq<int>)
    decreases |s|
  {
    if |s| < 2 then [] else [HexValue(s[0]) * 16 + HexValue(s[1])] + ReadHex(s[2..])
  }

  lemma {:induction false} HexBytesAppend(a: seq<int>, b: seq<int>)
    ensures HexBytes(a + b) == HexBytes(a) + HexBytes(b)
  {
    if a != [] {
      assert (a + b)[0] == a[0];
      assert (a + b)[1..] == a[1..] + b;
      HexBytesAppend(a[1..], b);
    } else {
      assert a + b == b;
    }
  }

  /** Hexadecimal digit pairs read back as the bytes they were written from. */
  lemma {:induction false} ReadHexBytes(bs: seq<int>)
    requires AllBytes(bs)
    ensures ReadHex(HexBytes(bs)) == bs
  {
    if bs != [] {
      var h := Hex2(bs[0]);
      Hex2Value(bs[0]);
      assert (h + HexBytes(bs[1..]))[2..] == HexBytes(bs[1..]);
      ReadHexBytes(bs[1..]);
      assert bs == [bs[0]] + bs[1..];
    }
  }

  lemma SumSnoc(s: seq<int>, x: int)
    ensures Sum(s + [x]) == Sum(s) + x
  {
    assert (s + [x])[..|s|] == s;
  }

  lemma SumAppend(a: seq<int>, b: seq<int>)
    ensures Sum(a + b) == Sum(a) + Sum(b)
    decreases |b|
  {
    if b != [] {
      assert a + b == (a + b[..|b| - 1]) + [b[|b| - 1]];
      SumSnoc(a + b[..|b| - 1], b[|b| - 1]);
      SumAppend(a, b[..|b| - 1]);
      assert b == b[..|b| - 1] + [b[|b| - 1]];
      SumSnoc(b[..|b| - 1], b[|b| - 1]);
    } else {
      assert a + b == a;
    }
  }

  lemma SumOfFour(a: int, b: int, c: int, d: int)
    ensures Sum([a, b, c, d]) == a + b + c + d
  {
    SumSnoc([], a);
    assert [] + [a] == [a];
    SumSnoc([a], b);
    assert [a] + [b] == [a, b];
    SumSnoc([a, b], c);
    assert [a, b] + [c] == [a, b, c];
    SumSnoc([a, b, c], d);
    assert [a, b, c] + [d] == [a, b, c, d];
  }

  /** The bytes of a line: the record's bytes, then its checksum. */
  function LineBytes(r: Record): seq<int>
  {
    var bs := RecordBytes(r);
    bs + [Checksum(bs)]
  }

  /** One line of the file: a colon, then the record's bytes and its checksum in hexadecimal. */
  function Line(r: Record): string
  {
    ":" + HexBytes(LineBytes(r))
  }

  /**
   * The bytes of a line are the record's length, address, type and data, then a
   * checksum with which all of them add up to 0 modulo 256.
   */
  lemma LineBytesMeaning(r: Record)
    requires WellFormed(r)
    ensures var bs := LineBytes(r);
            && |bs| == 5 + |r.data| && AllBytes(bs)
            && bs[0] == |r.data| && bs[1] * 256 + bs[2] == r.address && bs[3] == r.kind
            && bs[4..4 + |r.data|] == r.data
            && Sum(bs) % 256 == 0
  {
    var bs := RecordBytes(r);
    SumSnoc(bs, Checksum(bs));
  }

  /** A line reads back as its bytes. */
  lemma LineReads(r: Record)
    requires WellFormed(r)
    ensures Line(r)[0] == ':' && ReadHex(Line(r)[1..]) == LineBytes(r)
  {
    LineBytesMeaning(r);
    ReadHexBytes(LineBytes(r));
    assert Line(r)[1..] == HexBytes(LineBytes(r));
  }

  lemma HexBytesCons(x: int, rest: seq<int>)
    ensures HexBytes([x] + rest) == Hex2(ToByte(x)) + HexBytes(rest)
  {
    assert ([x] + rest)[1..] == rest;
  }

  lemma EofBytes()
    ensures LineBytes(EofRecord()) == [0, 0] + [0, 1] + [255]
  {
    assert RecordBytes(EofRecord()) == [0, 0, 0, 1];
    SumOfFour(0, 0, 0, 1);
  }

  /** The end-of-file line is `:00000001FF`. */
  lemma EofLine()
    ensures Line(EofRecord()) == ":000000" + Hex2(IHEX_EOF) + "FF"
  {
    EofBytes();
    assert HexBytes([0, 0] + [0, 1] + [255]) == HexBytes([0, 0]) + HexBytes([0, 1]) + HexBytes([255]) by {
      HexBytesAppend([0, 0] + [0, 1], [255]);
      HexBytesAppend([0, 0], [0, 1]);
    }
    HexBytesOfTwo(0, 0);
    HexBytesOfTwo(0, 1);
    HexBytesCons(255, []);
    assert Hex2(0) == "00" && Hex2(255) == "FF";
    Concat4(":", HexBytes([0, 0]), HexBytes([0, 1]), HexBytes([255]));
  }

  // ---------------------------------------------------------------- the first line, as written

  /** `String.format("%04X", v)` of an int: four digits, or eight for a negative value (its 32-bit pattern). */
  function JavaHex4(v: int): string
    requires -0x8000 <= v < 0x8000
  {
    if v >= 0 then Hex4(v) else "FFFF" + Hex4(v + 0x1_0000)
  }

  /**
   * The first line: an extended linear address record holding `beginAddress >> 16`,
   * its checksum computed from bits 16-31 of the address.
   */
  function ExtLine(b: int): string
    requires -0x8000_0000 <= b < 0x8000_0000
  {
    var sum := ToByte(2 + (b / 0x1_0000) % 256 + (b / 0x100_0000) % 256 + IHEX_EXTENDED_LINEAR_ADDRESS);
    ":" + (Hex2(2) + Hex4(0) + Hex2(IHEX_EXTENDED_LINEAR_ADDRESS)) + JavaHex4(b / 0x1_0000) + Hex2(ToByte(-sum))
  }

  lemma BigEndianOf(hi: int, lo: int)
    requires IsByte(hi) && IsByte(lo)
    ensures BigEndian16(hi * 256 + lo) == [hi, lo]
  {
  }

  lemma SumOfTwo(a: int, b: int)
    ensures Sum([a, b]) == a + b
  {
    SumSnoc([a], b);
    SumSnoc([], a);
    assert [a] + [b] == [a, b];
    assert [] + [a] == [a];
  }

  /** The bytes of an extended linear address record: its header, the two address bytes, the checksum. */
  lemma ExtChecksum(hi: int, lo: int)
    requires IsByte(hi) && IsByte(lo)
    ensures LineBytes(ExtRecord(hi * 256 + lo)) == [2, 0, 0, 4] + [hi, lo] + [ToByte(-ToByte(2 + lo + hi + 4))]
  {
    var bs := RecordBytes(ExtRecord(hi * 256 + lo));
    assert bs == [2, 0, 0, 4] + [hi, lo] by {
      BigEndianOf(hi, lo);
    }
    assert Sum(bs) == 6 + hi + lo by {
      SumAppend([2, 0, 0, 4], [hi, lo]);
      SumOfFour(2, 0, 0, 4);
      SumOfTwo(hi, lo);
    }
    NegByte(2 + lo + hi + 4);
  }

  lemma HexBytesOfTwo(a: int, b: int)
    requires IsByte(a) && IsByte(b)
    ensures HexBytes([a, b]) == Hex2(a) + Hex2(b)
  {
    HexBytesCons(b, []);
    HexBytesCons(a, [b]);
    assert [a, b] == [a] + [b];
  }

  lemma ExtHeaderDigits()
    ensures HexBytes([2, 0, 0, 4]) == Hex2(2) + Hex4(0) + Hex2(IHEX_EXTENDED_LINEAR_ADDRESS)
  {
    HexBytesAppend([2, 0], [0, 4]);
    HexBytesOfTwo(2, 0);
    HexBytesOfTwo(0, 4);
    assert [2, 0] + [0, 4] == [2, 0, 0, 4];
  }

  lemma Concat4(x: string, a: string, b: string, c: string)
    ensures x + (a + b + c) == x + a + b + c
  {
  }

  /** For an address below 2^31 the first line is the extended linear address record of its upper 16 bits. */
  lemma ExtLineRecord(b: int)
    requires 0 <= b < 0x8000_0000
    ensures ExtLine(b) == Line(ExtRecord(b / 0x1_0000))
  {
    var u := b / 0x1_0000;
    var hi, lo := u / 256, u % 256;
    assert b / 0x100_0000 == hi && hi < 128;
    assert u == hi * 256 + lo;
    var c := ToByte(-ToByte(2 + lo + hi + 4));
    ExtChecksum(hi, lo);
    assert HexBytes([2, 0, 0, 4] + [hi, lo] + [c]) == HexBytes([2, 0, 0, 4]) + HexBytes([hi, lo]) + HexBytes([c]) by {
      HexBytesAppend([2, 0, 0, 4] + [hi, lo], [c]);
      HexBytesAppend([2, 0, 0, 4], [hi, lo]);
    }
    ExtHeaderDigits();
    HexBytesOfTwo(hi, lo);
    HexBytesCons(c, []);
    Concat4(":", HexBytes([2, 0, 0, 4]), HexBytes([hi, lo]), HexBytes([c]));
  }

  // ---------------------------------------------------------------- the records of a payload

  /** `lineLength`: 16 bytes, or what is left. */
  function ChunkLength(left: int): int
  {
    if left > IHEX_LINE_LENGTH then IHEX_LINE_LENGTH else left
  }

  /** The data record of the chunk at `start`, its address within its 64 KiB segment. */
  function DataRecord(data: seq<int>, start: nat): Record
    requires start < |data|
  {
    Record(IHEX_DATA, start % 0x1_0000, data[start..start + ChunkLength(|data| - start)])
  }

  /** Before a chunk that starts a new 64 KiB segment: the extended linear address record of that segment. */
  function SegmentRecords(upper: int, start: nat): seq<Record>
  {
    if start % 0x1_0000 == 0 && start > 0 then [ExtRecord(ToShort(upper + start / 0x1_0000))] else []
  }

  /**
   * The records from payload byte `start` on: one data record per 16 bytes, an extended
   * linear address record before each 64 KiB boundary, and the end-of-file record.
   */
  function RecordsFrom(data: seq<int>, upper: int, start: nat): (recs: seq<Record>)
    requires start <= |data|
    ensures |recs| > 0
    decreases |data| - start
  {
    if start == |data| then [EofRecord()]
    else SegmentRecords(upper, start) + [DataRecord(data, start)]
         + RecordsFrom(data, upper, start + ChunkLength(|data| - start))
  }

  /** All records of a payload loaded at `b`: the base's extended linear address record first. */
  function HexRecords(data: seq<int>, b: int): seq<Record>
  {
    var upper := ToShort(b / 0x1_0000);
    [ExtRecord(upper)] + RecordsFrom(data, upper, 0)
  }

  /** Every record the writer produces is well formed. */
  lemma {:induction false} RecordsWellFormed(data: seq<int>, upper: int, start: nat)
    requires start <= |data| && AllBytes(data)
    ensures forall i :: 0 <= i < |RecordsFrom(data, upper, start)| ==> WellFormed(RecordsFrom(data, upper, start)[i])
    decreases |data| - start
  {
    if start < |data| {
      RecordsWellFormed(data, upper, start + ChunkLength(|data| - start));
    }
  }

  /** The lines of a list of records, one per record. */
  function Map<A, B>(f: A -> B, xs: seq<A>): (ys: seq<B>)
    ensures |ys| == |xs|
  {
    if xs == [] then [] else [f(xs[0])] + Map(f, xs[1..])
  }

  lemma {:induction false} MapAppend<A, B>(f: A -> B, a: seq<A>, b: seq<A>)
    ensures Map(f, a + b) == Map(f, a) + Map(f, b)
  {
    if a == [] {
      assert a + b == b;
    } else {
      assert (a + b)[1..] == a[1..] + b;
      MapAppend(f, a[1..], b);
    }
  }

  function Lines(recs: seq<Record>): (lines: seq<string>)
    ensures |lines| == |recs|
  {
    Map(Line, recs)
  }

  lemma LinesAppend(a: seq<Record>, b: seq<Record>)
    ensures Lines(a + b) == Lines(a) + Lines(b)
  {
    MapAppend(Line, a, b);
  }

  /** The lines of the file: the first line as the converter writes it, then those of the payload's records. */
  function HexText(data: seq<int>, b: int): seq<string>
    requires -0x8000_0000 <= b < 0x8000_0000
  {
    [ExtLine(b)] + Lines(RecordsFrom(data, ToShort(b / 0x1_0000), 0))
  }

  /** For an address below 2^31 every line of the file is the line of a record. */
  lemma HexTextRecords(data: seq<int>, b: int)
    requires 0 <= b < 0x8000_0000
    ensures HexText(data, b) == Lines(HexRecords(data, b))
  {
    ExtLineRecord(b);
    LinesAppend([ExtRecord(b / 0x1_0000)], RecordsFrom(data, b / 0x1_0000, 0));
  }

  // ---------------------------------------------------------------- loading the records back

  /** Bytes placed at consecutive addresses from `at`. */
  function Placed(at: int, bytes: seq<int>): (r: seq<(int, int)>)
    ensures |r| == |bytes|
    decreases |bytes|
  {
    if bytes == [] then [] else [(at, bytes[0])] + Placed(at + 1, bytes[1..])
  }

  /** Byte `j` is placed at `at + j`. */
  lemma {:induction false} PlacedAt(at: int, bytes: seq<int>, j: int)
    requires 0 <= j < |bytes|
    ensures Placed(at, bytes)[j] == (at + j, bytes[j])
    decreases j
  {
    if j > 0 {
      PlacedAt(at + 1, bytes[1..], j - 1);
    }
  }

  lemma {:induction false} PlacedAppend(at: int, x: seq<int>, y: seq<int>)
    ensures Placed(at, x) + Placed(at + |x|, y) == Placed(at, x + y)
    decreases |x|
  {
    if x == [] {
      assert x + y == y;
    } else {
      assert (x + y)[1..] == x[1..] + y;
      PlacedAppend(at + 1, x[1..], y);
    }
  }

  /**
   * What a loader makes of the records: each data byte at its record's address within
   * the current 64 KiB segment, an extended linear address record selecting the segment.
   */
  function Load(recs: seq<Record>, upper: int): seq<(int, int)>
  {
    if recs == [] then []
    else
      var r := recs[0];
      if r.kind == IHEX_EXTENDED_LINEAR_ADDRESS && |r.data| == 2 then Load(recs[1..], r.data[0] * 256 + r.data[1])
      else if r.kind == IHEX_DATA then Placed(upper * 0x1_0000 + r.address, r.data) + Load(recs[1..], upper)
      else Load(recs[1..], upper)
  }

  lemma LoadData(r: Record, rest: seq<Record>, upper: int)
    requires r.kind == IHEX_DATA
    ensures Load([r] + rest, upper) == Placed(upper * 0x1_0000 + r.address, r.data) + Load(rest, upper)
  {
    assert ([r] + rest)[1..] == rest;
  }

  lemma LoadExt(u: int, rest: seq<Record>, upper: int)
    requires 0 <= u < 0x1_0000
    ensures Load([ExtRecord(u)] + rest, upper) == Load(rest, u)
  {
    assert ([ExtRecord(u)] + rest)[1..] == rest;
  }

  lemma SegmentAddress(upper: int, start: nat)
    ensures (upper + start / 0x1_0000) * 0x1_0000 + start % 0x1_0000 == upper * 0x1_0000 + start
  {
  }

  /** The next chunk starts on a 16-byte boundary, or at the end, and in the same segment unless it starts a new one. */
  lemma NextChunk(start: nat, size: nat)
    requires start < size && start % 16 == 0
    ensures var next := start + ChunkLength(size - start);
            && start < next <= size && (next % 16 == 0 || next == size)
            && ((next % 0x1_0000 == 0 && next > 0) || next / 0x1_0000 == start / 0x1_0000)
  {
    var next := start + ChunkLength(size - start);
    if next % 0x1_0000 != 0 {
      assert next / 0x1_0000 == start / 0x1_0000;
    }
  }

  /** Loading the data record of one chunk, then the rest, in the chunk's segment. */
  lemma LoadChunk(data: seq<int>, upper: int, start: nat, rest: seq<Record>)
    requires start < |data|
    ensures var next := start + ChunkLength(|data| - start);
            Load([DataRecord(data, start)] + rest, upper + start / 0x1_0000)
            == Placed(upper * 0x1_0000 + start, data[start..next]) + Load(rest, upper + start / 0x1_0000)
  {
    LoadData(DataRecord(data, start), rest, upper + start / 0x1_0000);
    SegmentAddress(upper, start);
  }

  /** The chunk at `start` and what follows it load as the bytes from `start` on. */
  lemma LoadStep(data: seq<int>, upper: int, start: nat, rest: seq<Record>)
    requires start < |data|
    requires Load(rest, upper + start / 0x1_0000)
             == Placed(upper * 0x1_0000 + start + ChunkLength(|data| - start), data[start + ChunkLength(|data| - start)..])
    ensures Load([DataRecord(data, start)] + rest, upper + start / 0x1_0000) == Placed(upper * 0x1_0000 + start, data[start..])
  {
    var next := start + ChunkLength(|data| - start);
    var at := upper * 0x1_0000 + start;
    calc {
      Load([DataRecord(data, start)] + rest, upper + start / 0x1_0000);
      { LoadChunk(data, upper, start, rest); }
      Placed(at, data[start..next]) + Placed(at + (next - start), data[next..]);
      { PlacedAppend(at, data[start..next], data[next..]); }
      Placed(at, data[start..next] + data[next..]);
      { assert data[start..next] + data[next..] == data[start..]; }
      Placed(at, data[start..]);
    }
  }

  /** One chunk of the induction: the segment's records and the chunk, before records that load as the bytes after it. */
  lemma LoadRecordsStep(data: seq<int>, upper: int, start: nat, current: int, rest: seq<Record>)
    requires start < |data|
    requires 0 <= upper && upper + |data| / 0x1_0000 < 0x1_0000
    requires (start % 0x1_0000 == 0 && start > 0) || current == upper + start / 0x1_0000
    requires var next := start + ChunkLength(|data| - start);
             Load(rest, upper + start / 0x1_0000) == Placed(upper * 0x1_0000 + next, data[next..])
    ensures Load(SegmentRecords(upper, start) + [DataRecord(data, start)] + rest, current)
            == Placed(upper * 0x1_0000 + start, data[start..])
  {
    var recs := [DataRecord(data, start)] + rest;
    var seg := upper + start / 0x1_0000;
    LoadStep(data, upper, start, rest);
    if start % 0x1_0000 == 0 && start > 0 {
      assert 0 <= seg < 0x1_0000 by {
        assert start / 0x1_0000 <= |data| / 0x1_0000;
      }
      assert SegmentRecords(upper, start) + [DataRecord(data, start)] + rest == [ExtRecord(seg)] + recs;
      LoadExt(seg, recs, current);
    } else {
      assert SegmentRecords(upper, start) + [DataRecord(data, start)] + rest == recs;
    }
  }

  /** The end-of-file record loads nothing. */
  lemma LoadEnd(data: seq<int>, upper: int, current: int)
    ensures Load(RecordsFrom(data, upper, |data|), current) == Placed(upper * 0x1_0000 + |data|, data[|data|..])
  {
    assert RecordsFrom(data, upper, |data|) == [EofRecord()];
  }

  lemma {:induction false} LoadRecordsFrom(data: seq<int>, upper: int, start: nat, current: int)
    requires start <= |data| && (start % 16 == 0 || start == |data|)
    requires 0 <= upper && upper + |data| / 0x1_0000 < 0x1_0000
    requires (start % 0x1_0000 == 0 && start > 0) || current == upper + start / 0x1_0000
    ensures Load(RecordsFrom(data, upper, start), current) == Placed(upper * 0x1_0000 + start, data[start..])
    decreases |data| - start
  {
    if start == |data| {
      LoadEnd(data, upper, current);
    } else {
      var next := start + ChunkLength(|data| - start);
      NextChunk(start, |data|);
      var rest := RecordsFrom(data, upper, next);
      LoadRecordsFrom(data, upper, next, upper + start / 0x1_0000);
      LoadRecordsStep(data, upper, start, current, rest);
      assert RecordsFrom(data, upper, start) == SegmentRecords(upper, start) + [DataRecord(data, start)] + rest;
    }
  }

  /**
   * Loading the records of a payload written at `b` puts every payload byte back at its
   * address: byte k at the base's 64 KiB segment plus k.
   */
  lemma HexRoundTrip(data: seq<int>, b: int)
    requires 0 <= b < 0x8000_0000
    requires b / 0x1_0000 + |data| / 0x1_0000 < 0x1_0000
    ensures Load(HexRecords(data, b), 0) == Placed((b / 0x1_0000) * 0x1_0000, data)
  {
    var upper := b / 0x1_0000;
    LoadExt(upper, RecordsFrom(data, upper, 0), 0);
    LoadRecordsFrom(data, upper, 0, upper);
  }

  // ---------------------------------------------------------------- the writer

  /** The header of a data line: its length, its address (high byte first) and its type. */
  function HeaderBytes(len: int, address: int): seq<int>
  {
    [len, address / 256, address % 256, IHEX_DATA]
  }

  /** The header's digits and sum, as the converter writes and adds them. */
  method DataHeader(len: int, address: int) returns (sum: int, line: string)
    requires 0 < len <= 16 && 0 <= address < 0x1_0000
    ensures sum == ToByte(Sum(HeaderBytes(len, address)))
    ensures line == ":" + HexBytes(HeaderBytes(len, address))
  {
    SumOfFour(len, address / 256, address % 256, IHEX_DATA);
    HexBytesCons(IHEX_DATA, []);
    HexBytesCons(address % 256, [IHEX_DATA]);
    HexBytesCons(address / 256, [address % 256, IHEX_DATA]);
    HexBytesCons(len, [address / 256, address % 256, IHEX_DATA]);
    assert HeaderBytes(len, address) == [len] + [address / 256, address % 256, IHEX_DATA];
    sum := ToByte(len + (address / 256) % 256 + address % 256 + IHEX_DATA);
    line := ":" + Hex2(len) + Hex4(address) + Hex2(IHEX_DATA);
  }

  lemma HexBytesSnoc(a: seq<int>, v: int)
    ensures HexBytes(a + [v]) == HexBytes(a) + Hex2(ToByte(v))
  {
    HexBytesAppend(a, [v]);
    HexBytesCons(v, []);
  }

  lemma NegByte(x: int)
    ensures ToByte(-ToByte(x)) == ToByte(-x)
  {
  }

  /** Adding one byte to a line: its digits are appended and it joins the running sum. */
  lemma LineStep(bs: seq<int>, v: int, sum: int, line: string)
    requires IsByte(v) && sum == ToByte(Sum(bs)) && line == ":" + HexBytes(bs)
    ensures ToByte(sum + v) == ToByte(Sum(bs + [v]))
    ensures line + Hex2(v) == ":" + HexBytes(bs + [v])
  {
    SumSnoc(bs, v);
    ByteAdd(Sum(bs), v);
    HexBytesSnoc(bs, v);
  }

  lemma SliceSnoc(h: seq<int>, data: seq<int>, start: nat, idx: nat)
    requires start + idx < |data|
    ensures h + data[start..start + idx + 1] == (h + data[start..start + idx]) + [data[start + idx]]
  {
    assert data[start..start + idx + 1] == data[start..start + idx] + [data[start + idx]];
  }

  /** A record's bytes, summed and written out: the checksum's digits complete its line. */
  lemma LineOfBytes(r: Record, bs: seq<int>, sum: int, line: string)
    requires bs == RecordBytes(r) && sum == ToByte(Sum(bs)) && line == ":" + HexBytes(bs)
    ensures line + Hex2(ToByte(-sum)) == Line(r)
  {
    var c := ToByte(-Sum(bs));
    assert ToByte(-sum) == c by {
      NegByte(Sum(bs));
    }
    assert HexBytes(bs + [c]) == HexBytes(bs) + Hex2(c) by {
      HexBytesSnoc(bs, c);
    }
  }

  lemma HeaderIsRecord(r: Record)
    requires r.kind == IHEX_DATA && 0 < |r.data| < 256 && 0 <= r.address < 0x1_0000
    ensures HeaderBytes(|r.data|, r.address) + r.data == RecordBytes(r)
  {
  }

  /** One data line, its checksum summed byte by byte as the converter does. */
  method DataLine(data: seq<int>, start: int, len: int) returns (line: string)
    requires AllBytes(data) && 0 <= start && 0 < len <= IHEX_LINE_LENGTH && start + len <= |data|
    ensures line == Line(Record(IHEX_DATA, start % 0x1_0000, data[start..start + len]))
  {
    var address := start % 0x1_0000;
    var sum;
    sum, line := DataHeader(len, address);
    ghost var header := HeaderBytes(len, address);
    ghost var bs := header;
    assert header + data[start..start] == header;
    var idx := 0;
    while idx < len
      invariant 0 <= idx <= len
      invariant bs == header + data[start..start + idx]
      invariant sum == ToByte(Sum(bs))
      invariant line == ":" + HexBytes(bs)
    {
      var v := data[start + idx];
      LineStep(bs, v, sum, line);
      SliceSnoc(header, data, start, idx);
      bs := bs + [v];
      sum := ToByte(sum + v);
      line := line + Hex2(v);
      idx := idx + 1;
    }
    ghost var r := Record(IHEX_DATA, address, data[start..start + len]);
    HeaderIsRecord(r);
    LineOfBytes(r, bs, sum, line);
    sum := ToByte(-sum);
    line := line + Hex2(sum);
  }

  lemma LinesOne(r: Record)
    ensures Lines([r]) == [Line(r)]
  {
    assert [r][1..] == [];
  }

  /** The lines of the records written so far, after one more segment record list and data record. */
  lemma LinesStep(first: string, lines: seq<string>, done: seq<Record>, ext: seq<string>, seg: seq<Record>,
                  line: string, r: Record)
    requires lines == [first] + Lines(done) && ext == Lines(seg) && line == Line(r)
    ensures lines + ext + [line] == [first] + Lines(done + seg + [r])
  {
    LinesAppend(done + seg, [r]);
    LinesAppend(done, seg);
    LinesOne(r);
  }

  /** The records written so far and those from `start` make up all records of the payload. */
  lemma RecordsStep(data: seq<int>, upper: int, start: nat, done: seq<Record>)
    requires start < |data|
    requires done + RecordsFrom(data, upper, start) == RecordsFrom(data, upper, 0)
    ensures done + SegmentRecords(upper, start) + [DataRecord(data, start)]
            + RecordsFrom(data, upper, start + ChunkLength(|data| - start)) == RecordsFrom(data, upper, 0)
  {
    var seg, r := SegmentRecords(upper, start), DataRecord(data, start);
    var rest := RecordsFrom(data, upper, start + ChunkLength(|data| - start));
    assert RecordsFrom(data, upper, start) == seg + [r] + rest;
    assert done + (seg + [r] + rest) == done + seg + [r] + rest;
  }

  /** At the end only the last record is left: its line completes the file. */
  lemma RecordsEnd(first: string, lines: seq<string>, done: seq<Record>, last: Record, all: seq<Record>)
    requires done + [last] == all && lines == [first] + Lines(done)
    ensures lines + [Line(last)] == [first] + Lines(all)
  {
    LinesAppend(done, [last]);
    LinesOne(last);
  }

  /** The first line, its checksum summed as the converter does. */
  method FirstLine(b: int) returns (line: string)
    requires -0x8000_0000 <= b < 0x8000_0000
    ensures line == ExtLine(b)
  {
    var sumAdd := ToByte(2 + (b / 0x1_0000) % 256 + (b / 0x100_0000) % 256 + IHEX_EXTENDED_LINEAR_ADDRESS);
    sumAdd := ToByte(-sumAdd);
    line := ":" + Hex2(2) + Hex4(0) + Hex2(IHEX_EXTENDED_LINEAR_ADDRESS) + JavaHex4(b / 0x1_0000) + Hex2(sumAdd);
  }

  /**
   * One turn of the writer's loop: the chunk at `start`, preceded by an extended linear
   * address line when it starts a new 64 KiB segment. `done` are the records written so far.
   */
  method WriteChunk(data: seq<int>, upper: int, start: nat, first: string, lines: seq<string>, ghost done: seq<Record>)
    returns (lines': seq<string>, ghost done': seq<Record>, next: nat)
    requires AllBytes(data) && start < |data|
    requires done + RecordsFrom(data, upper, start) == RecordsFrom(data, upper, 0)
    requires lines == [first] + Lines(done)
    ensures next == start + ChunkLength(|data| - start)
    ensures done' + RecordsFrom(data, upper, next) == RecordsFrom(data, upper, 0)
    ensures lines' == [first] + Lines(done')
  {
    var len := if |data| - start > IHEX_LINE_LENGTH then IHEX_LINE_LENGTH else |data| - start;
    ghost var seg := SegmentRecords(upper, start);
    var ext := [];
    if start % 0x1_0000 == 0 && start > 0 {
      ext := [Line(ExtRecord(ToShort(upper + start / 0x1_0000)))];
      LinesOne(ExtRecord(ToShort(upper + start / 0x1_0000)));
    }
    ghost var r := DataRecord(data, start);
    assert r == Record(IHEX_DATA, start % 0x1_0000, data[start..start + len]);
    var line := DataLine(data, start, len);
    RecordsStep(data, upper, start, done);
    LinesStep(first, lines, done, ext, seg, line, r);
    lines' := lines + ext + [line];
    done' := done + seg + [r];
    next := start + len;
  }

  /**
   * `writeInIntelHexFile` after `writeBinary`, line by line: the first line from the
   * base address, one data line per 16 payload bytes with an extended linear address
   * line at each 64 KiB boundary, and the end-of-file line.
   */
  method WriteIntelHex(data: seq<int>, b: int) returns (lines: seq<string>)
    requires AllBytes(data) && -0x8000_0000 <= b < 0x8000_0000
    ensures lines == HexText(data, b)
  {
    var upper := ToShort(b / 0x1_0000);
    var first := FirstLine(b);
    lines := [first];
    ghost var done: seq<Record> := [];
    var start := 0;
    while start < |data|
      invariant 0 <= start <= |data|
      invariant done + RecordsFrom(data, upper, start) == RecordsFrom(data, upper, 0)
      invariant lines == [first] + Lines(done)
      decreases |data| - start
    {
      lines, done, start := WriteChunk(data, upper, start, first, lines, done);
    }
    assert RecordsFrom(data, upper, |data|) == [EofRecord()];
    RecordsEnd(first, lines, done, EofRecord(), RecordsFrom(data, upper, 0));
    EofLine();
    lines := lines + [":000000" + Hex2(IHEX_EOF) + "FF"];
  }

  // ---------------------------------------------------------------- the loop as written

  /**
   * The records from `start` on as the converter writes them: its line counter is a Java
   * `short`, which wraps to -32768 after 32767, and the next read of `data` then fails.
   */
  function RecordsAsWritten(data: seq<int>, start: int): Result<seq<Record>>
    requires -0x8000 <= start < 0x8000 && start <= |data|
    decreases if start < 0 then 0 else |data| - start + 1
  {
    if start >= |data| then Ok([EofRecord()])
    else if start < 0 then Err("ArrayIndexOutOfBoundsException")
    else
      var len := ChunkLength(|data| - start);
      var rest :- RecordsAsWritten(data, SignedShort(ToShort(start + len)));
      Ok([Record(IHEX_DATA, start, data[start..start + len])] + rest)
  }

  /** The file as the converter writes it: the first line, the data lines, the end-of-file line. */
  function HexTextAsWritten(data: seq<int>, b: int): Result<seq<string>>
    requires -0x8000_0000 <= b < 0x8000_0000
  {
    var recs :- RecordsAsWritten(data, 0);
    Ok([ExtLine(b)] + Lines(recs))
  }

  lemma {:induction false} RecordsAsWrittenFail(data: seq<int>, start: int)
    requires 0 <= start < 0x8000 && start % 16 == 0 && |data| >= 0x8000
    ensures RecordsAsWritten(data, start).Err?
    decreases 0x8000 - start
  {
    assert ChunkLength(|data| - start) == 16;
    if start + 16 < 0x8000 {
      RecordsAsWrittenFail(data, start + 16);
    } else {
      assert SignedShort(ToShort(start + 16)) == -0x8000;
    }
  }

  /** A payload of 32768 bytes or more makes the writer fail: its 16-bit line counter wraps negative. */
  lemma HexAsWrittenFails(data: seq<int>, b: int)
    requires -0x8000_0000 <= b < 0x8000_0000 && |data| >= 0x8000
    ensures HexTextAsWritten(data, b).Err?
  {
    RecordsAsWrittenFail(data, 0);
  }

  /** Below 32768 the counter does not wrap, and no chunk starts a new segment. */
  lemma AsWrittenStep(data: seq<int>, upper: int, start: nat)
    requires start < |data| < 0x8000
    requires var next := start + ChunkLength(|data| - start);
             RecordsAsWritten(data, next) == Ok(RecordsFrom(data, upper, next))
    ensures RecordsAsWritten(data, start) == Ok(RecordsFrom(data, upper, start))
  {
    var next := start + ChunkLength(|data| - start);
    var rest := RecordsFrom(data, upper, next);
    assert SignedShort(ToShort(next)) == next;
    assert start % 0x1_0000 == start;
    assert RecordsAsWritten(data, start) == Ok([DataRecord(data, start)] + rest);
    assert SegmentRecords(upper, start) == [];
    assert RecordsFrom(data, upper, start) == [DataRecord(data, start)] + rest;
  }

  lemma {:induction false} RecordsAgree(data: seq<int>, upper: int, start: nat)
    requires start <= |data| < 0x8000
    ensures RecordsAsWritten(data, start) == Ok(RecordsFrom(data, upper, start))
    decreases |data| - start
  {
    if start < |data| {
      var next := start + ChunkLength(|data| - start);
      RecordsAgree(data, upper, next);
      AsWrittenStep(data, upper, start);
    }
  }

  /** Below 32768 bytes the writer as written produces exactly the corrected file. */
  lemma HexAsWrittenAgrees(data: seq<int>, b: int)
    requires -0x8000_0000 <= b < 0x8000_0000 && |data| < 0x8000
    ensures HexTextAsWritten(data, b) == Ok(HexText(data, b))
  {
    RecordsAgree(data, ToShort(b / 0x1_0000), 0);
  }
}
