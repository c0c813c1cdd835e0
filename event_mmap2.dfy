/// PERF_RECORD_MMAP2 records: src/perf_data_parser/event_mmap2.rs. The
/// decoder reads the record's fixed fields and its NUL-terminated file name,
/// and reports the mapping's start address when the mapping is executable and
/// its file name contains the profiled binary's name.
module EventMmap2 {
  import opened Options
  import opened Wire
  import Text

  /** The `MemoryProtection` flags. */
  const PROT_READ: bv32 := 0x1
  const PROT_WRITE: bv32 := 0x2
  const PROT_EXEC: bv32 := 0x4

  /** `MemoryProtection::from_bits_truncate`: drops every bit but the three flags. */
  function ProtectionFromBits(bits: U32): (prot: bv32)
    ensures prot & !(PROT_READ | PROT_WRITE | PROT_EXEC) == 0
    ensures prot & PROT_EXEC == (bits as bv32) & PROT_EXEC
  {
    (bits as bv32) & (PROT_READ | PROT_WRITE | PROT_EXEC)
  }

  predicate IsExecutable(prot: bv32)
  {
    prot & PROT_EXEC == PROT_EXEC
  }

  /** The bytes of the 64-byte fixed part: pid, tid (u32); addr, len, pgoff
      (u64); maj, min (u32); ino, ino_generation (u64); prot, flags (u32). */
  const FIXED_FIELDS_SIZE: nat := 64

  /** What `read_mmap2_event` returns: its byte count and the base address. */
  datatype Mmap2Out = Mmap2Out(bytesRead: nat, objectBaseAddress: Option<U64>)

  /** The first NUL at or after `k`, if there is one. */
  function NulFrom(data: seq<Byte>, k: nat): (z: Option<nat>)
    ensures z.Some? ==> k <= z.value < |data| && data[z.value] == 0
    ensures z.Some? ==> forall i :: k <= i < z.value ==> data[i] != 0
    ensures z.None? ==> forall i :: k <= i < |data| ==> data[i] != 0
    decreases |data| - k
  {
    if |data| <= k then None
    else if data[k] == 0 then Some(k)
    else NulFrom(data, k + 1)
  }

  /** The `String` built by pushing each byte `as char`: one character per
      byte, the one whose code point is the byte's value. */
  function Latin1(bytes: seq<Byte>): (s: string)
    ensures |s| == |bytes|
    ensures forall i :: 0 <= i < |bytes| ==> s[i] == bytes[i] as char
  {
    if bytes == [] then []
    else Latin1(bytes[..|bytes| - 1]) + [bytes[|bytes| - 1] as char]
  }

  /** The match rule: an executable mapping whose file name contains the
      profiled binary's file name (a substring match, not a path match). */
  predicate Matches(filename: string, objectPath: string, prot: U32)
  {
    Text.IsSubstring(objectPath, filename) && IsExecutable(ProtectionFromBits(prot))
  }

  /** What `read_mmap2_event(object_path)` does with the record payload at
      `p`: its result and the position it leaves the cursor at. */
  function Mmap2At(data: seq<Byte>, p: nat, objectPath: string): (r: Result<Decoded<Mmap2Out>>)
    ensures r.Ok? ==> r.value.next == p + r.value.value.bytesRead
    ensures r.Ok? ==> r.value.value.bytesRead >= FIXED_FIELDS_SIZE + 1
    ensures r.Ok? <==> p + FIXED_FIELDS_SIZE <= |data| && NulFrom(data, p + FIXED_FIELDS_SIZE).Some?
    ensures r.Err? ==> r.error == UnexpectedEof
  {
    if |data| < p + FIXED_FIELDS_SIZE then Err(UnexpectedEof)
    else
      match NulFrom(data, p + FIXED_FIELDS_SIZE)
      case None => Err(UnexpectedEof)
      case Some(z) =>
        var filename := Latin1(data[p + FIXED_FIELDS_SIZE..z]);
        var fields := Mmap2FieldsAt(data, p);
        var base := if Matches(filename, objectPath, fields.prot) then Some(fields.addr) else None;
        Ok(Decoded(Mmap2Out(FIXED_FIELDS_SIZE + 1 + |filename|, base), z + 1))
  }

  /** The fixed fields of a record, in file order. */
  datatype Mmap2Fields = Mmap2Fields(
    pid: U32, tid: U32, addr: U64, len: U64, pgoff: U64, maj: U32, min: U32,
    ino: U64, inoGeneration: U64, prot: U32, flags: U32)

  function Mmap2FieldsAt(data: seq<Byte>, p: nat): Mmap2Fields
    requires p + FIXED_FIELDS_SIZE <= |data|
  {
    Mmap2Fields(U32At(data, p), U32At(data, p + 4), U64At(data, p + 8), U64At(data, p + 16),
                U64At(data, p + 24), U32At(data, p + 32), U32At(data, p + 36), U64At(data, p + 40),
                U64At(data, p + 48), U32At(data, p + 56), U32At(data, p + 60))
  }

  /** The sequence of reads that opens `read_mmap2_event`, pid to flags. */
  method ReadFixedFields(r: Reader) returns (res: Result<Mmap2Fields>)
    modifies r
    ensures res.Ok? <==> old(r.pos) + FIXED_FIELDS_SIZE <= |r.data|
    ensures res.Ok? ==> res.value == Mmap2FieldsAt(r.data, old(r.pos)) && r.pos == old(r.pos) + FIXED_FIELDS_SIZE
    ensures res.Err? ==> res.error == UnexpectedEof
  {
    var pid := r.ReadU32();
    if pid.Err? { return Err(pid.error); }
    var tid := r.ReadU32();
    if tid.Err? { return Err(tid.error); }
    var addr := r.ReadU64();
    if addr.Err? { return Err(addr.error); }
    var len := r.ReadU64();
    if len.Err? { return Err(len.error); }
    var pgoff := r.ReadU64();
    if pgoff.Err? { return Err(pgoff.error); }
    var maj := r.ReadU32();
    if maj.Err? { return Err(maj.error); }
    var min := r.ReadU32();
    if min.Err? { return Err(min.error); }
    var ino := r.ReadU64();
    if ino.Err? { return Err(ino.error); }
    var inoGeneration := r.ReadU64();
    if inoGeneration.Err? { return Err(inoGeneration.error); }
    var prot := r.ReadU32();
    if prot.Err? { return Err(prot.error); }
    var flags := r.ReadU32();
    if flags.Err? { return Err(flags.error); }
    res := Ok(Mmap2Fields(pid.value, tid.value, addr.value, len.value, pgoff.value, maj.value,
                          min.value, ino.value, inoGeneration.value, prot.value, flags.value));
  }

  /** `read_mmap2_event`: reads the record payload at the cursor. */
  method ReadMmap2Event(r: Reader, objectPath: string) returns (res: Result<Mmap2Out>)
    modifies r
    ensures var spec := Mmap2At(r.data, old(r.pos), objectPath);
            && (res.Ok? <==> spec.Ok?)
            && (res.Ok? ==> res.value == spec.value.value && r.pos == spec.value.next)
            && (res.Err? ==> res.error == spec.error)
  {
    ghost var p := r.pos;
    var bytesRead := 65;
    var objectBaseAddress := None;

    var fields := ReadFixedFields(r);
    if fields.Err? {
      return Err(fields.error);
    }

    var filename := ReadFileName(r);
    if filename.Err? {
      return Err(filename.error);
    }
    bytesRead := bytesRead + |filename.value|;
    Mmap2AtFound(r.data, p, r.pos - 1, objectPath);
    if Text.IsSubstring(objectPath, filename.value) && IsExecutable(ProtectionFromBits(fields.value.prot)) {
      objectBaseAddress := Some(fields.value.addr);
    }
    return Ok(Mmap2Out(bytesRead, objectBaseAddress));
  }

  /** The name loop of `read_mmap2_event`: single-byte reads up to the NUL,
      each byte pushed onto the name as a `char`. */
  method ReadFileName(r: Reader) returns (res: Result<string>)
    modifies r
    ensures res.Ok? <==> NulFrom(r.data, old(r.pos)).Some?
    ensures res.Ok? ==> var z := NulFrom(r.data, old(r.pos)).value;
                        res.value == Latin1(r.data[old(r.pos)..z]) && r.pos == z + 1
    ensures res.Err? ==> res.error == UnexpectedEof
  {
    ghost var q := r.pos;
    var filename: string := [];
    while true
      invariant r.pos == q + |filename|
      invariant q < r.pos ==> r.pos <= |r.data|
      invariant q <= |r.data| ==> filename == Latin1(r.data[q..r.pos])
      invariant forall i :: q <= i < r.pos ==> r.data[i] != 0
      decreases |r.data| - r.pos
    {
      var c := r.ReadU8();
      if c.Err? {
        return Err(c.error);
      }
      if c.value != 0 {
        assert r.data[q..r.pos][..r.pos - 1 - q] == r.data[q..r.pos - 1];
        filename := filename + [c.value as char];
      } else {
        break;
      }
    }
    assert NulFrom(r.data, q) == Some(r.pos - 1);
    return Ok(filename);
  }

  /** The bytes of the fixed fields, in the order the decoder reads them. */
  function EncodeMmap2Fields(f: Mmap2Fields): (bytes: seq<Byte>)
    ensures |bytes| == FIXED_FIELDS_SIZE
  {
    EncodeU32(f.pid) + (EncodeU32(f.tid) + (EncodeU64(f.addr) + (EncodeU64(f.len) + (EncodeU64(f.pgoff)
    + (EncodeU32(f.maj) + (EncodeU32(f.min) + (EncodeU64(f.ino) + (EncodeU64(f.inoGeneration)
    + (EncodeU32(f.prot) + EncodeU32(f.flags))))))))))
  }

  /** A record payload: the fixed fields, then the file name and its NUL. */
  function EncodeMmap2(f: Mmap2Fields, filename: seq<Byte>): (bytes: seq<Byte>)
    ensures |bytes| == FIXED_FIELDS_SIZE + |filename| + 1
  {
    EncodeMmap2Fields(f) + filename + [0]
  }

  lemma FixedFieldsRoundTrip(data: seq<Byte>, p: nat, f: Mmap2Fields)
    requires p + FIXED_FIELDS_SIZE <= |data|
    requires data[p..p + FIXED_FIELDS_SIZE] == EncodeMmap2Fields(f)
    ensures Mmap2FieldsAt(data, p) == f
  {
    var e11 := EncodeU32(f.flags);
    var e10 := EncodeU32(f.prot) + e11;
    var e9 := EncodeU64(f.inoGeneration) + e10;
    var e8 := EncodeU64(f.ino) + e9;
    var e7 := EncodeU32(f.min) + e8;
    var e6 := EncodeU32(f.maj) + e7;
    var e5 := EncodeU64(f.pgoff) + e6;
    var e4 := EncodeU64(f.len) + e5;
    var e3 := EncodeU64(f.addr) + e4;
    var e2 := EncodeU32(f.tid) + e3;
    PeelU32(data, p, f.pid, e2);
    PeelU32(data, p + 4, f.tid, e3);
    PeelU64(data, p + 8, f.addr, e4);
    PeelU64(data, p + 16, f.len, e5);
    PeelU64(data, p + 24, f.pgoff, e6);
    PeelU32(data, p + 32, f.maj, e7);
    PeelU32(data, p + 36, f.min, e8);
    PeelU64(data, p + 40, f.ino, e9);
    PeelU64(data, p + 48, f.inoGeneration, e10);
    PeelU32(data, p + 56, f.prot, e11);
    PeelU32(data, p + 60, f.flags, []);
  }

  /** Decoding an encoded record gives back its fields: the byte count is
      65 plus the name's length, which is exactly the record's length, and
      the address is reported exactly when the match rule holds. */
  lemma Mmap2RoundTrip(data: seq<Byte>, p: nat, f: Mmap2Fields, filename: seq<Byte>, objectPath: string)
    requires 0 !in filename
    requires p + FIXED_FIELDS_SIZE + |filename| + 1 <= |data|
    requires data[p..p + FIXED_FIELDS_SIZE + |filename| + 1] == EncodeMmap2(f, filename)
    ensures Mmap2At(data, p, objectPath)
         == Ok(Decoded(Mmap2Out(FIXED_FIELDS_SIZE + 1 + |filename|,
                                if Matches(Latin1(filename), objectPath, f.prot) then Some(f.addr) else None),
                       p + FIXED_FIELDS_SIZE + 1 + |filename|))
  {
    FixedPart(data, p, f, filename);
    NamePart(data, p, f, filename);
    DecodedParts(data, p, f.prot, f.addr, filename, objectPath);
  }

  lemma DecodedParts(data: seq<Byte>, p: nat, prot: U32, addr: U64, filename: seq<Byte>, objectPath: string)
    requires p + FIXED_FIELDS_SIZE + |filename| + 1 <= |data|
    requires Mmap2FieldsAt(data, p).prot == prot && Mmap2FieldsAt(data, p).addr == addr
    requires NulFrom(data, p + FIXED_FIELDS_SIZE) == Some(p + FIXED_FIELDS_SIZE + |filename|)
    requires data[p + FIXED_FIELDS_SIZE..p + FIXED_FIELDS_SIZE + |filename|] == filename
    ensures Mmap2At(data, p, objectPath)
         == Ok(Decoded(Mmap2Out(FIXED_FIELDS_SIZE + 1 + |filename|,
                                if Matches(Latin1(filename), objectPath, prot) then Some(addr) else None),
                       p + FIXED_FIELDS_SIZE + 1 + |filename|))
  {
    var z := p + FIXED_FIELDS_SIZE + |filename|;
    var r := Mmap2At(data, p, objectPath);
    Mmap2AtFound(data, p, z, objectPath);
    assert r.value.value.objectBaseAddress
        == if Matches(Latin1(filename), objectPath, prot) then Some(addr) else None;
  }

  /** What the decoder makes of a payload whose name ends at `z`. */
  lemma Mmap2AtFound(data: seq<Byte>, p: nat, z: nat, objectPath: string)
    requires p + FIXED_FIELDS_SIZE <= |data|
    requires NulFrom(data, p + FIXED_FIELDS_SIZE) == Some(z)
    ensures Mmap2At(data, p, objectPath).Ok?
    ensures Mmap2At(data, p, objectPath).value.next == z + 1
    ensures Mmap2At(data, p, objectPath).value.value.bytesRead == z + 1 - p
    ensures Mmap2At(data, p, objectPath).value.value.objectBaseAddress
         == if Matches(Latin1(data[p + FIXED_FIELDS_SIZE..z]), objectPath, Mmap2FieldsAt(data, p).prot)
            then Some(Mmap2FieldsAt(data, p).addr) else None
  {
  }

  /** The two fixed fields the match rule looks at, read back in place. */
  lemma FixedPart(data: seq<Byte>, p: nat, f: Mmap2Fields, filename: seq<Byte>)
    requires p + FIXED_FIELDS_SIZE + |filename| + 1 <= |data|
    requires data[p..p + FIXED_FIELDS_SIZE + |filename| + 1] == EncodeMmap2(f, filename)
    ensures Mmap2FieldsAt(data, p).prot == f.prot && Mmap2FieldsAt(data, p).addr == f.addr
  {
    var w := data[p..p + FIXED_FIELDS_SIZE + |filename| + 1];
    assert data[p..p + FIXED_FIELDS_SIZE] == w[..FIXED_FIELDS_SIZE];
    FixedFieldsRoundTrip(data, p, f);
  }

  /** The name of an encoded record, found in place by the name scan. */
  lemma NamePart(data: seq<Byte>, p: nat, f: Mmap2Fields, filename: seq<Byte>)
    requires 0 !in filename
    requires p + FIXED_FIELDS_SIZE + |filename| + 1 <= |data|
    requires data[p..p + FIXED_FIELDS_SIZE + |filename| + 1] == EncodeMmap2(f, filename)
    ensures NulFrom(data, p + FIXED_FIELDS_SIZE) == Some(p + FIXED_FIELDS_SIZE + |filename|)
    ensures data[p + FIXED_FIELDS_SIZE..p + FIXED_FIELDS_SIZE + |filename|] == filename
  {
    NameRoundTrip(data, p + FIXED_FIELDS_SIZE, filename, EncodeMmap2Fields(f));
  }

  /** A NUL-free name followed by a NUL is found by the name scan. */
  lemma NameRoundTrip(data: seq<Byte>, k: nat, filename: seq<Byte>, prefix: seq<Byte>)
    requires 0 !in filename && |prefix| <= k
    requires k + |filename| + 1 <= |data|
    requires data[k - |prefix|..k + |filename| + 1] == prefix + filename + [0]
    ensures NulFrom(data, k) == Some(k + |filename|)
    ensures data[k..k + |filename|] == filename
  {
    var z := k + |filename|;
    var e := prefix + filename + [0];
    assert data[z] == e[|prefix| + |filename|] == 0;
    forall i | k <= i < z
      ensures data[i] != 0
    {
      assert data[i] == e[i - k + |prefix|] == filename[i - k];
    }
    forall i | 0 <= i < |filename|
      ensures data[k..z][i] == filename[i]
    {
      assert data[k + i] == e[|prefix| + i];
    }
    assert data[k..z] == filename;
  }
}
