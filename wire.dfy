/// Byte-level access to a perf.data file: the `ReadExt` helpers of
/// src/perf_data_parser/perf_data_parser.rs, which read fixed-width integers
/// in native byte order through a seekable cursor. The model fixes the byte
/// order to little-endian (the order of the x86-64 and AArch64 hosts that
/// write these files).
module Wire {
  import Flags

  type Byte = b: int | 0 <= b < 0x100
  type U16 = x: int | 0 <= x < 0x1_0000
  type U32 = x: int | 0 <= x < 0x1_0000_0000
  type U64 = x: int | 0 <= x < 0x1_0000_0000_0000_0000

  /** Everything that ends a conversion early: the `io::Error`s and boxed
      errors the decoder returns, the panics it raises, and the two states
      from which its loops never return. */
  datatype Error =
    | UnexpectedEof              // read_exact ran past the end of the file
    | VersionNotUtf8             // read_version: the magic is not UTF-8 (InvalidData)
    | WrongVersion               // read_header: the magic is not "PERFILE2" (InvalidInput)
    | InvalidSeek                // a seek to a position lseek refuses (EINVAL)
    | NoAttributes               // the attribute section holds no record
    | SymbolicatorFailed         // Symbolicator::new failed
    | LookupFailed               // Symbolicator::lookup_symbol failed
    | UnknownEventType(code: U32)  // panic: the unreachable!() arm of EventType::from
    | ReadFormatUnimplemented    // panic: the todo!() for PERF_SAMPLE_READ
    | Diverges                   // the decoding loop never terminates from here

  datatype Result<+T> = Ok(value: T) | Err(error: Error)

  /** A value decoded at some position, and the position right after it. */
  datatype Decoded<+T> = Decoded(value: T, next: nat)

  /** `u16::from_le_bytes` of the two bytes at `p`. */
  function U16At(data: seq<Byte>, p: nat): U16
    requires p + 2 <= |data|
  {
    data[p] as int + 0x100 * (data[p + 1] as int)
  }

  /** `u32::from_le_bytes` of the four bytes at `p`. */
  function U32At(data: seq<Byte>, p: nat): U32
    requires p + 4 <= |data|
  {
    U16At(data, p) + 0x1_0000 * U16At(data, p + 2)
  }

  /** `u64::from_le_bytes` of the eight bytes at `p`. */
  function U64At(data: seq<Byte>, p: nat): U64
    requires p + 8 <= |data|
  {
    U32At(data, p) + 0x1_0000_0000 * U32At(data, p + 4)
  }

  /** `u16::to_le_bytes`. */
  function EncodeU16(v: U16): (bs: seq<Byte>)
    ensures |bs| == 2
  {
    [v % 0x100, v / 0x100]
  }

  /** `u32::to_le_bytes`: the low half first. */
  function EncodeU32(v: U32): (bs: seq<Byte>)
    ensures |bs| == 4
  {
    EncodeU16(v % 0x1_0000) + EncodeU16(v / 0x1_0000)
  }

  /** `u64::to_le_bytes`: the low half first. */
  function EncodeU64(v: U64): (bs: seq<Byte>)
    ensures |bs| == 8
  {
    EncodeU32(v % 0x1_0000_0000) + EncodeU32(v / 0x1_0000_0000)
  }

  /** An encoded u16 is read back. */
  lemma DecodeEncodeU16(data: seq<Byte>, p: nat, v: U16)
    requires p + 2 <= |data| && data[p..p + 2] == EncodeU16(v)
    ensures U16At(data, p) == v
  {
    assert data[p] == v % 0x100 && data[p + 1] == v / 0x100;
  }

  lemma DecodeEncodeU32(data: seq<Byte>, p: nat, v: U32)
    requires p + 4 <= |data| && data[p..p + 4] == EncodeU32(v)
    ensures U32At(data, p) == v
  {
    var w := data[p..p + 4];
    assert data[p..p + 2] == w[..2] && data[p + 2..p + 4] == w[2..];
    DecodeEncodeU16(data, p, v % 0x1_0000);
    DecodeEncodeU16(data, p + 2, v / 0x1_0000);
  }

  lemma DecodeEncodeU64(data: seq<Byte>, p: nat, v: U64)
    requires p + 8 <= |data| && data[p..p + 8] == EncodeU64(v)
    ensures U64At(data, p) == v
  {
    var w := data[p..p + 8];
    assert data[p..p + 4] == w[..4] && data[p + 4..p + 8] == w[4..];
    DecodeEncodeU32(data, p, v % 0x1_0000_0000);
    DecodeEncodeU32(data, p + 4, v / 0x1_0000_0000);
  }

  /** Every run of bytes encodes the integer read from it. */
  lemma EncodeDecodeU16(data: seq<Byte>, p: nat)
    requires p + 2 <= |data|
    ensures EncodeU16(U16At(data, p)) == data[p..p + 2]
  {
    var v := U16At(data, p);
    assert v % 0x100 == data[p] && v / 0x100 == data[p + 1];
  }

  lemma EncodeDecodeU32(data: seq<Byte>, p: nat)
    requires p + 4 <= |data|
    ensures EncodeU32(U32At(data, p)) == data[p..p + 4]
  {
    var v := U32At(data, p);
    assert v % 0x1_0000 == U16At(data, p) && v / 0x1_0000 == U16At(data, p + 2);
    EncodeDecodeU16(data, p);
    EncodeDecodeU16(data, p + 2);
    assert data[p..p + 4] == data[p..p + 2] + data[p + 2..p + 4];
  }

  lemma EncodeDecodeU64(data: seq<Byte>, p: nat)
    requires p + 8 <= |data|
    ensures EncodeU64(U64At(data, p)) == data[p..p + 8]
  {
    var v := U64At(data, p);
    Flags.DivModUnique(v, 0x1_0000_0000, U32At(data, p + 4), U32At(data, p));
    EncodeDecodeU32(data, p);
    EncodeDecodeU32(data, p + 4);
    assert data[p..p + 8] == data[p..p + 4] + data[p + 4..p + 8];
  }

  /** The bytes after position `p`; none once `p` is past the end. */
  function Remaining(data: seq<Byte>, p: nat): nat
  {
    if p <= |data| then |data| - p else 0
  }

  /** Whether `n` bytes can be read at `p`. Reading nothing always succeeds,
      even at a position past the end. */
  predicate Fits(data: seq<Byte>, p: nat, n: nat)
  {
    n <= Remaining(data, p)
  }

  predicate Continuation(b: Byte)
  {
    0x80 <= b <= 0xBF
  }

  /** Reading a u32 field back off the front of an encoded run of fields. */
  lemma PeelU32(data: seq<Byte>, q: nat, v: U32, rest: seq<Byte>)
    requires q + 4 + |rest| <= |data|
    requires data[q..q + 4 + |rest|] == EncodeU32(v) + rest
    ensures U32At(data, q) == v
    ensures data[q + 4..q + 4 + |rest|] == rest
  {
    var w := data[q..q + 4 + |rest|];
    assert data[q..q + 4] == w[..4];
    assert data[q + 4..q + 4 + |rest|] == w[4..];
    DecodeEncodeU32(data, q, v);
  }

  /** Reading a u64 field back off the front of an encoded run of fields. */
  lemma PeelU64(data: seq<Byte>, q: nat, v: U64, rest: seq<Byte>)
    requires q + 8 + |rest| <= |data|
    requires data[q..q + 8 + |rest|] == EncodeU64(v) + rest
    ensures U64At(data, q) == v
    ensures data[q + 8..q + 8 + |rest|] == rest
  {
    var w := data[q..q + 8 + |rest|];
    assert data[q..q + 8] == w[..8];
    assert data[q + 8..q + 8 + |rest|] == w[8..];
    DecodeEncodeU64(data, q, v);
  }

  /** Well-formed UTF-8 (table 3-7 of the Unicode standard): the byte
      sequences `String::from_utf8` accepts. */
  predicate ValidUtf8(bs: seq<Byte>)
    decreases |bs|
  {
    if bs == [] then true
    else if bs[0] < 0x80 then ValidUtf8(bs[1..])
    else if 0xC2 <= bs[0] <= 0xDF then
      |bs| >= 2 && Continuation(bs[1]) && ValidUtf8(bs[2..])
    else if bs[0] == 0xE0 then
      |bs| >= 3 && 0xA0 <= bs[1] <= 0xBF && Continuation(bs[2]) && ValidUtf8(bs[3..])
    else if 0xE1 <= bs[0] <= 0xEC || 0xEE <= bs[0] <= 0xEF then
      |bs| >= 3 && Continuation(bs[1]) && Continuation(bs[2]) && ValidUtf8(bs[3..])
    else if bs[0] == 0xED then
      |bs| >= 3 && 0x80 <= bs[1] <= 0x9F && Continuation(bs[2]) && ValidUtf8(bs[3..])
    else if bs[0] == 0xF0 then
      |bs| >= 4 && 0x90 <= bs[1] <= 0xBF && Continuation(bs[2]) && Continuation(bs[3])
      && ValidUtf8(bs[4..])
    else if 0xF1 <= bs[0] <= 0xF3 then
      |bs| >= 4 && Continuation(bs[1]) && Continuation(bs[2]) && Continuation(bs[3])
      && ValidUtf8(bs[4..])
    else if bs[0] == 0xF4 then
      |bs| >= 4 && 0x80 <= bs[1] <= 0x8F && Continuation(bs[2]) && Continuation(bs[3])
      && ValidUtf8(bs[4..])
    else false
  }

  lemma {:induction false} AsciiIsValidUtf8(bs: seq<Byte>)
    requires forall i :: 0 <= i < |bs| ==> bs[i] < 0x80
    ensures ValidUtf8(bs)
  {
    if bs != [] {
      AsciiIsValidUtf8(bs[1..]);
    }
  }

  /** The positions a seek may reach: `lseek` takes the position as an i64
      and refuses a negative one, so every position is below 2^63. */
  const SEEK_LIMIT: nat := 0x8000_0000_0000_0000

  /** A `BufReader<File>` positioned somewhere in the file. Seeking past the
      end is allowed, as for a file; reads there fail. */
  class Reader {
    const data: seq<Byte>
    var pos: nat

    constructor (data: seq<Byte>)
      ensures this.data == data && pos == 0
    {
      this.data := data;
      pos := 0;
    }

    /** `read_exact` into an `n`-byte buffer. */
    method ReadExact(n: nat) returns (r: Result<seq<Byte>>)
      modifies this
      ensures old(pos) + n <= |data| ==> r == Ok(data[old(pos)..old(pos) + n]) && pos == old(pos) + n
      ensures |data| < old(pos) + n ==> r == Err(UnexpectedEof) && pos == old(pos)
    {
      if pos + n <= |data| {
        r := Ok(data[pos..pos + n]);
        pos := pos + n;
      } else {
        r := Err(UnexpectedEof);
      }
    }

    method ReadU8() returns (r: Result<Byte>)
      modifies this
      ensures r.Ok? <==> old(pos) < |data|
      ensures r.Ok? ==> r.value == data[old(pos)] && pos == old(pos) + 1
      ensures r.Err? ==> r.error == UnexpectedEof && pos == old(pos)
    {
      var bytes := ReadExact(1);
      if bytes.Err? {
        return Err(bytes.error);
      }
      r := Ok(bytes.value[0]);
    }

    method ReadU16() returns (r: Result<U16>)
      modifies this
      ensures r.Ok? <==> old(pos) + 2 <= |data|
      ensures r.Ok? ==> r.value == U16At(data, old(pos)) && pos == old(pos) + 2
      ensures r.Err? ==> r.error == UnexpectedEof && pos == old(pos)
    {
      var bytes := ReadExact(2);
      if bytes.Err? {
        return Err(bytes.error);
      }
      r := Ok(U16At(bytes.value, 0));
    }

    method ReadU32() returns (r: Result<U32>)
      modifies this
      ensures r.Ok? <==> old(pos) + 4 <= |data|
      ensures r.Ok? ==> r.value == U32At(data, old(pos)) && pos == old(pos) + 4
      ensures r.Err? ==> r.error == UnexpectedEof && pos == old(pos)
    {
      var bytes := ReadExact(4);
      if bytes.Err? {
        return Err(bytes.error);
      }
      r := Ok(U32At(bytes.value, 0));
    }

    method ReadU64() returns (r: Result<U64>)
      modifies this
      ensures r.Ok? <==> old(pos) + 8 <= |data|
      ensures r.Ok? ==> r.value == U64At(data, old(pos)) && pos == old(pos) + 8
      ensures r.Err? ==> r.error == UnexpectedEof && pos == old(pos)
    {
      var bytes := ReadExact(8);
      if bytes.Err? {
        return Err(bytes.error);
      }
      r := Ok(U64At(bytes.value, 0));
    }

    /** `read_version`: eight bytes that must form a UTF-8 string. */
    method ReadVersion() returns (r: Result<seq<Byte>>)
      modifies this
      ensures old(pos) + 8 <= |data| ==> pos == old(pos) + 8
      ensures old(pos) + 8 <= |data| && ValidUtf8(data[old(pos)..old(pos) + 8]) ==>
                r == Ok(data[old(pos)..old(pos) + 8])
      ensures old(pos) + 8 <= |data| && !ValidUtf8(data[old(pos)..old(pos) + 8]) ==>
                r == Err(VersionNotUtf8)
      ensures |data| < old(pos) + 8 ==> r == Err(UnexpectedEof) && pos == old(pos)
    {
      var bytes := ReadExact(8);
      if bytes.Err? {
        return Err(bytes.error);
      }
      if !ValidUtf8(bytes.value) {
        return Err(VersionNotUtf8);
      }
      r := Ok(bytes.value);
    }

    /** `seek(SeekFrom::Start(offset))`: the offset goes to `lseek` as
        `offset as i64`, so one of 2^63 or more is negative there and refused. */
    method Seek(offset: U64) returns (r: Result<()>)
      modifies this
      ensures offset < SEEK_LIMIT ==> r == Ok(()) && pos == offset
      ensures offset >= SEEK_LIMIT ==> r == Err(InvalidSeek) && pos == old(pos)
    {
      if offset >= SEEK_LIMIT {
        return Err(InvalidSeek);
      }
      pos := offset;
      r := Ok(());
    }

    /** `seek_relative(delta)`: refused, with the cursor left where it was,
        when the target is before the start or not below 2^63. */
    method SeekRelative(delta: int) returns (r: Result<()>)
      modifies this
      ensures 0 <= old(pos) + delta < SEEK_LIMIT ==> r == Ok(()) && pos == old(pos) + delta
      ensures !(0 <= old(pos) + delta < SEEK_LIMIT) ==> r == Err(InvalidSeek) && pos == old(pos)
    {
      if pos + delta < 0 || pos + delta >= SEEK_LIMIT {
        return Err(InvalidSeek);
      }
      pos := pos + delta;
      r := Ok(());
    }
  }
}
