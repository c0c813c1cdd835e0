/// PERF_RECORD_SAMPLE records: src/perf_data_parser/event_sample.rs. The
/// record's fields depend on the `sample_type` mask of the event attribute;
/// the decoder reads the fields it knows in file order, keeps the thread id,
/// the time and the call chain, and hands a sample with its symbolised stack
/// trace to the caller when all three are present.
module EventSample {
  import opened Options
  import opened Wire
  import opened Symbols
  import opened Flags

  /** The `SampleType` bitflags, one field per flag in bit order: the flag
      in field k is `bit(k)`. */
  datatype SampleType = SampleType(
    ip: bool, tid: bool, time: bool, addr: bool, read: bool, callchain: bool, id: bool,
    cpu: bool, period: bool, streamId: bool, raw: bool, branchStack: bool, regsUser: bool,
    stackUser: bool, weight: bool, dataSrc: bool, identifier: bool, transaction: bool,
    regsIntr: bool, physAddr: bool, aux: bool, cgroup: bool, dataPageSize: bool,
    codePageSize: bool, weightStruct: bool)

  /** `SampleType::from_bits_truncate`: each flag is set exactly when its
      bit is; bits 25 to 63 name no flag and are dropped. */
  function SampleTypeFromBits(bits: U64): SampleType
  {
    var f := FlagsOf(bits, 25);
    SampleType(f[0], f[1], f[2], f[3], f[4], f[5], f[6], f[7], f[8], f[9], f[10], f[11], f[12], f[13],
               f[14], f[15], f[16], f[17], f[18], f[19], f[20], f[21], f[22], f[23], f[24])
  }

  /** Each of the 25 flags is set exactly when its bit is set; the bits
      above 24 are dropped. */
  lemma SampleTypeFromBitsFlags(bits: U64)
    ensures SampleTypeFromBits(bits).ip <==> BitSet(bits, 0)
    ensures SampleTypeFromBits(bits).tid <==> BitSet(bits, 1)
    ensures SampleTypeFromBits(bits).time <==> BitSet(bits, 2)
    ensures SampleTypeFromBits(bits).addr <==> BitSet(bits, 3)
    ensures SampleTypeFromBits(bits).read <==> BitSet(bits, 4)
    ensures SampleTypeFromBits(bits).callchain <==> BitSet(bits, 5)
    ensures SampleTypeFromBits(bits).id <==> BitSet(bits, 6)
    ensures SampleTypeFromBits(bits).cpu <==> BitSet(bits, 7)
    ensures SampleTypeFromBits(bits).period <==> BitSet(bits, 8)
    ensures SampleTypeFromBits(bits).streamId <==> BitSet(bits, 9)
    ensures SampleTypeFromBits(bits).raw <==> BitSet(bits, 10)
    ensures SampleTypeFromBits(bits).branchStack <==> BitSet(bits, 11)
    ensures SampleTypeFromBits(bits).regsUser <==> BitSet(bits, 12)
    ensures SampleTypeFromBits(bits).stackUser <==> BitSet(bits, 13)
    ensures SampleTypeFromBits(bits).weight <==> BitSet(bits, 14)
    ensures SampleTypeFromBits(bits).dataSrc <==> BitSet(bits, 15)
    ensures SampleTypeFromBits(bits).identifier <==> BitSet(bits, 16)
    ensures SampleTypeFromBits(bits).transaction <==> BitSet(bits, 17)
    ensures SampleTypeFromBits(bits).regsIntr <==> BitSet(bits, 18)
    ensures SampleTypeFromBits(bits).physAddr <==> BitSet(bits, 19)
    ensures SampleTypeFromBits(bits).aux <==> BitSet(bits, 20)
    ensures SampleTypeFromBits(bits).cgroup <==> BitSet(bits, 21)
    ensures SampleTypeFromBits(bits).dataPageSize <==> BitSet(bits, 22)
    ensures SampleTypeFromBits(bits).codePageSize <==> BitSet(bits, 23)
    ensures SampleTypeFromBits(bits).weightStruct <==> BitSet(bits, 24)
  {
    FlagsOfBitSets(bits, 25);
  }

  /** What the decoder hands to `process_sample`. */
  datatype Sample = Sample(tid: U32, timestamp: U64, stacktrace: seq<string>)

  /** What `read_sample_event` returns (its byte count) and the sample it
      emitted, if any. */
  datatype SampleOut = SampleOut(bytesRead: nat, sample: Option<Sample>)

  /** 1 when the flag is set: every field before the call chain is 8 bytes
      wide when present and absent otherwise. */
  function Present(flag: bool): nat
  {
    if flag then 1 else 0
  }

  /** Where the thread id sits: after IDENTIFIER, IP and the pid half of TID. */
  function TidOffset(identifier: bool, ip: bool): nat
  {
    8 * (Present(identifier) + Present(ip)) + 4
  }

  /** Where the time sits: after IDENTIFIER, IP and TID. */
  function TimeOffset(identifier: bool, ip: bool, tid: bool): nat
  {
    8 * (Present(identifier) + Present(ip) + Present(tid))
  }

  /** IDENTIFIER, IP, TID (pid and tid) and TIME: the fields up to the
      last one kept, 8 bytes each. */
  function LeadingBytes(identifier: bool, ip: bool, tid: bool, time: bool): (n: nat)
    ensures tid ==> TidOffset(identifier, ip) + 4 <= n
    ensures time ==> TimeOffset(identifier, ip, tid) + 8 <= n
  {
    8 * (Present(identifier) + Present(ip) + Present(tid) + Present(time))
  }

  /** ADDR, ID, STREAM_ID, CPU (cpu and reserved) and PERIOD: read and
      dropped, 8 bytes each. */
  function TrailingBytes(addr: bool, id: bool, streamId: bool, cpu: bool, period: bool): nat
  {
    8 * (Present(addr) + Present(id) + Present(streamId) + Present(cpu) + Present(period))
  }

  /** All the fields before the call chain, in file order. */
  function FixedBytes(t: SampleType): (n: nat)
    ensures LeadingBytes(t.identifier, t.ip, t.tid, t.time) <= n
  {
    LeadingBytes(t.identifier, t.ip, t.tid, t.time) + TrailingBytes(t.addr, t.id, t.streamId, t.cpu, t.period)
  }

  /** The two fixed fields the decoder keeps. */
  datatype FixedFields = FixedFields(tid: Option<U32>, timestamp: Option<U64>)

  function FixedFieldsAt(data: seq<Byte>, p: nat, identifier: bool, ip: bool, tid: bool, time: bool): FixedFields
    requires Fits(data, p, LeadingBytes(identifier, ip, tid, time))
  {
    FixedFields(if tid then Some(U32At(data, p + TidOffset(identifier, ip))) else None,
                if time then Some(U64At(data, p + TimeOffset(identifier, ip, tid))) else None)
  }

  /** `n` consecutive u64 values starting at `q`. */
  function U64sAt(data: seq<Byte>, q: nat, n: nat): (values: seq<U64>)
    requires q + 8 * n <= |data|
    ensures |values| == n
    ensures forall i :: 0 <= i < n ==> values[i] == U64At(data, q + 8 * i)
  {
    if n == 0 then [] else U64sAt(data, q, n - 1) + [U64At(data, q + 8 * (n - 1))]
  }

  /** PERF_SAMPLE_CALLCHAIN: a u64 count `nr`, then `nr` instruction
      pointers. The cursor ends right after the last one. */
  function CallchainAt(data: seq<Byte>, q: nat): (r: Result<Decoded<seq<U64>>>)
    ensures r.Ok? <==> q + 8 <= |data| && q + 8 + 8 * U64At(data, q) <= |data|
    ensures r.Ok? ==> |r.value.value| == U64At(data, q) && r.value.next == q + 8 * (|r.value.value| + 1)
    ensures r.Err? ==> r.error == UnexpectedEof
  {
    if |data| < q + 8 then Err(UnexpectedEof)
    else
      var nr := U64At(data, q);
      if |data| < q + 8 + 8 * nr then Err(UnexpectedEof)
      else Ok(Decoded(U64sAt(data, q + 8, nr), q + 8 + 8 * nr))
  }

  /** The number of RAW bytes the decoder reads for a RAW `size`:
      `((size as i32 + 7) & -8) as u32`, with the i32 addition wrapping.
      For every size up to 0xFFFF_FFF8 this rounds up to a multiple of 8;
      above it the sum wraps to a small non-negative number and the count is 0. */
  function RawPadding(size: U32): (n: nat)
    ensures n % 8 == 0 && n < 0x1_0000_0000
    ensures size <= 0xFFFF_FFF8 ==> size <= n < size + 8
    ensures size > 0xFFFF_FFF8 ==> n == 0
  {
    var t := (size + 7) % 0x1_0000_0000;
    t - t % 8
  }

  /** PERF_SAMPLE_RAW: a u32 size, then `RawPadding(size)` bytes skipped one
      by one. The result is where the cursor ends. */
  function RawAt(data: seq<Byte>, q: nat): (r: Result<nat>)
    ensures r.Ok? <==> q + 4 <= |data| && q + 4 + RawPadding(U32At(data, q)) <= |data|
    ensures r.Ok? ==> r.value == q + 4 + RawPadding(U32At(data, q))
    ensures r.Err? ==> r.error == UnexpectedEof
  {
    if |data| < q + 4 then Err(UnexpectedEof)
    else
      var n := RawPadding(U32At(data, q));
      if |data| < q + 4 + n then Err(UnexpectedEof) else Ok(q + 4 + n)
  }

  function OptionalCallchainAt(data: seq<Byte>, q: nat, present: bool): (r: Result<Decoded<Option<seq<U64>>>>)
    ensures r.Ok? ==> (r.value.value.Some? <==> present)
    ensures r.Ok? && !present ==> r.value.next == q
    ensures r.Ok? && present ==> r.value.next == q + 8 * (|r.value.value.value| + 1)
  {
    if !present then Ok(Decoded(None, q))
    else
      match CallchainAt(data, q)
      case Err(e) => Err(e)
      case Ok(chain) => Ok(Decoded(Some(chain.value), chain.next))
  }

  function OptionalRawAt(data: seq<Byte>, q: nat, present: bool): (r: Result<nat>)
  {
    if present then RawAt(data, q) else Ok(q)
  }

  /** The bytes the CALLCHAIN block at `q` takes when present: the count
      `nr` and `nr` addresses. */
  function ChainBytes(data: seq<Byte>, q: nat, present: bool): nat
  {
    if present && q + 8 <= |data| then 8 * (U64At(data, q) + 1) else 0
  }

  /** The bytes the RAW block at `q` takes when present: the size and the
      padded payload. */
  function RawBytes(data: seq<Byte>, q: nat, present: bool): nat
  {
    if present && q + 4 <= |data| then 4 + RawPadding(U32At(data, q)) else 0
  }

  /** What `read_sample_event(sample_type, symbolicator, process_sample)`
      does with the record payload at `p`, for a symbolicator built for the
      load address `base`: its byte count, the sample it emits and the
      position it leaves the cursor at. Past the fixed fields it is
      `SampleTailAt` (see `SampleAtTail`); the READ flag aborts exactly when
      the fixed fields fit. */
  function SampleAt(data: seq<Byte>, p: nat, sampleType: SampleType, oracle: Oracle, base: U64)
    : (r: Result<Decoded<SampleOut>>)
    ensures r.Ok? ==> Fits(data, p, FixedBytes(sampleType)) && !sampleType.read
    ensures r.Ok? ==> p + r.value.value.bytesRead <= r.value.next
    ensures r == Err(ReadFormatUnimplemented) <==> Fits(data, p, FixedBytes(sampleType)) && sampleType.read
  {
    var fixed := FixedBytes(sampleType);
    if !Fits(data, p, fixed) then Err(UnexpectedEof)
    else if sampleType.read then Err(ReadFormatUnimplemented)
    else
      var f := FixedFieldsAt(data, p, sampleType.identifier, sampleType.ip, sampleType.tid, sampleType.time);
      SampleTailAt(data, p + fixed, sampleType.callchain, sampleType.raw, f, fixed, oracle, base)
  }

  /** The rest of `read_sample_event` once the fixed fields (`fixed` bytes,
      kept values `f`) are read and the cursor is at `q`: the CALLCHAIN and
      RAW blocks, then the emission of the sample. */
  function SampleTailAt(data: seq<Byte>, q: nat, callchain: bool, raw: bool, f: FixedFields, fixed: nat,
                        oracle: Oracle, base: U64): (r: Result<Decoded<SampleOut>>)
    ensures r.Ok? ==> r.value.value.bytesRead == fixed + ChainBytes(data, q, callchain)
    ensures r.Ok? ==> r.value.next == q + ChainBytes(data, q, callchain)
                                      + RawBytes(data, q + ChainBytes(data, q, callchain), raw)
    ensures r.Ok? ==> (r.value.value.sample.Some? <==> f.tid.Some? && f.timestamp.Some? && callchain)
    ensures r.Err? ==> r.error == UnexpectedEof
                       || (r.error == LookupFailed && f.tid.Some? && f.timestamp.Some? && callchain)
  {
    match OptionalCallchainAt(data, q, callchain)
    case Err(e) => Err(e)
    case Ok(chain) =>
      var bytesRead := fixed + (chain.next - q);
      match OptionalRawAt(data, chain.next, raw)
      case Err(e) => Err(e)
      case Ok(next) =>
        if f.tid.Some? && f.timestamp.Some? && chain.value.Some? then
          match Symbolize(oracle, base, chain.value.value)
          case None => Err(LookupFailed)
          case Some(stacktrace) =>
            Ok(Decoded(SampleOut(bytesRead, Some(Sample(f.tid.value, f.timestamp.value, stacktrace))), next))
        else
          Ok(Decoded(SampleOut(bytesRead, None), next))
  }

  /** A block `if sample_type.contains(FLAG) { self.read_u64()?; bytes_read += 8; }`
      whose value is dropped. The result is the count added. */
  method SkipU64If(r: Reader, present: bool) returns (res: Result<nat>)
    modifies r
    ensures res.Ok? <==> Fits(r.data, old(r.pos), 8 * Present(present))
    ensures res.Ok? ==> res.value == 8 * Present(present) && r.pos == old(r.pos) + res.value
                        && Remaining(r.data, r.pos) == Remaining(r.data, old(r.pos)) - res.value
    ensures res.Err? ==> res.error == UnexpectedEof
  {
    if !present {
      return Ok(0);
    }
    var value := r.ReadU64();
    if value.Err? { return Err(value.error); }
    return Ok(8);
  }

  /** The CPU block: the cpu number and a reserved word, both dropped. */
  method SkipCpuIf(r: Reader, present: bool) returns (res: Result<nat>)
    modifies r
    ensures res.Ok? <==> Fits(r.data, old(r.pos), 8 * Present(present))
    ensures res.Ok? ==> res.value == 8 * Present(present) && r.pos == old(r.pos) + res.value
                        && Remaining(r.data, r.pos) == Remaining(r.data, old(r.pos)) - res.value
    ensures res.Err? ==> res.error == UnexpectedEof
  {
    if !present {
      return Ok(0);
    }
    var cpu := r.ReadU32();
    if cpu.Err? { return Err(cpu.error); }
    var reserved := r.ReadU32();
    if reserved.Err? { return Err(reserved.error); }
    return Ok(8);
  }

  /** The TID block: the pid is dropped, the thread id kept. */
  method ReadTidIf(r: Reader, present: bool) returns (res: Result<Option<U32>>)
    modifies r
    ensures res.Ok? <==> Fits(r.data, old(r.pos), 8 * Present(present))
    ensures res.Ok? ==> r.pos == old(r.pos) + 8 * Present(present)
                        && Remaining(r.data, r.pos) == Remaining(r.data, old(r.pos)) - 8 * Present(present)
    ensures res.Ok? ==> (res.value.Some? <==> present)
    ensures res.Ok? && present ==> res.value.value == U32At(r.data, old(r.pos) + 4)
    ensures res.Err? ==> res.error == UnexpectedEof
  {
    if !present {
      return Ok(None);
    }
    var pid := r.ReadU32();
    if pid.Err? { return Err(pid.error); }
    var tid := r.ReadU32();
    if tid.Err? { return Err(tid.error); }
    return Ok(Some(tid.value));
  }

  /** The TIME block: the timestamp is kept. */
  method ReadTimeIf(r: Reader, present: bool) returns (res: Result<Option<U64>>)
    modifies r
    ensures res.Ok? <==> Fits(r.data, old(r.pos), 8 * Present(present))
    ensures res.Ok? ==> r.pos == old(r.pos) + 8 * Present(present)
                        && Remaining(r.data, r.pos) == Remaining(r.data, old(r.pos)) - 8 * Present(present)
    ensures res.Ok? ==> (res.value.Some? <==> present)
    ensures res.Ok? && present ==> res.value.value == U64At(r.data, old(r.pos))
    ensures res.Err? ==> res.error == UnexpectedEof
  {
    if !present {
      return Ok(None);
    }
    var time := r.ReadU64();
    if time.Err? { return Err(time.error); }
    return Ok(Some(time.value));
  }

  /** The IDENTIFIER, IP, TID and TIME blocks of `read_sample_event`, for
      the given flags: the thread id and the time are kept. */
  method ReadLeadingSampleFields(r: Reader, identifier: bool, ip: bool, tid: bool, time: bool)
    returns (res: Result<FixedFields>)
    modifies r
    ensures res.Ok? <==> Fits(r.data, old(r.pos), LeadingBytes(identifier, ip, tid, time))
    ensures res.Ok? ==> res.value == FixedFieldsAt(r.data, old(r.pos), identifier, ip, tid, time)
                        && r.pos == old(r.pos) + LeadingBytes(identifier, ip, tid, time)
                        && Remaining(r.data, r.pos) == Remaining(r.data, old(r.pos)) - LeadingBytes(identifier, ip, tid, time)
    ensures res.Err? ==> res.error == UnexpectedEof
  {
    ghost var p := r.pos;
    var sampleId := SkipU64If(r, identifier);
    if sampleId.Err? { return Err(sampleId.error); }
    var instructionPointer := SkipU64If(r, ip);
    if instructionPointer.Err? { return Err(instructionPointer.error); }
    assert r.pos + 4 == p + TidOffset(identifier, ip);
    assert r.pos + 8 * Present(tid) == p + TimeOffset(identifier, ip, tid);
    res := ReadTidAndTime(r, tid, time);
  }

  /** The TID and TIME blocks: the thread id and the time are kept. */
  method ReadTidAndTime(r: Reader, tid: bool, time: bool) returns (res: Result<FixedFields>)
    modifies r
    ensures res.Ok? <==> Fits(r.data, old(r.pos), 8 * (Present(tid) + Present(time)))
    ensures res.Ok? ==> res.value == FixedFields(if tid then Some(U32At(r.data, old(r.pos) + 4)) else None,
                                                 if time then Some(U64At(r.data, old(r.pos) + 8 * Present(tid)))
                                                 else None)
                        && r.pos == old(r.pos) + 8 * (Present(tid) + Present(time))
                        && Remaining(r.data, r.pos) == Remaining(r.data, old(r.pos)) - 8 * (Present(tid) + Present(time))
    ensures res.Err? ==> res.error == UnexpectedEof
  {
    var threadId := ReadTidIf(r, tid);
    if threadId.Err? { return Err(threadId.error); }
    var timestamp := ReadTimeIf(r, time);
    if timestamp.Err? { return Err(timestamp.error); }
    return Ok(FixedFields(threadId.value, timestamp.value));
  }

  /** The ADDR, ID, STREAM_ID, CPU and PERIOD blocks, for the given flags:
      read and dropped. The result is the count they add. */
  method SkipTrailingSampleFields(r: Reader, addr: bool, id: bool, streamId: bool, cpu: bool, period: bool)
    returns (res: Result<nat>)
    modifies r
    ensures res.Ok? <==> Fits(r.data, old(r.pos), TrailingBytes(addr, id, streamId, cpu, period))
    ensures res.Ok? ==> res.value == TrailingBytes(addr, id, streamId, cpu, period) && r.pos == old(r.pos) + res.value
    ensures res.Err? ==> res.error == UnexpectedEof
  {
    var address := SkipU64If(r, addr);
    if address.Err? { return address; }
    var sampleId := SkipU64If(r, id);
    if sampleId.Err? { return sampleId; }
    var stream := SkipU64If(r, streamId);
    if stream.Err? { return stream; }
    var cpuAndReserved := SkipCpuIf(r, cpu);
    if cpuAndReserved.Err? { return cpuAndReserved; }
    var samplePeriod := SkipU64If(r, period);
    if samplePeriod.Err? { return samplePeriod; }
    return Ok(address.value + sampleId.value + stream.value + cpuAndReserved.value + samplePeriod.value);
  }

  /** The fixed-field blocks of `read_sample_event`, in file order; every
      present field counts 8 bytes. */
  method ReadFixedSampleFields(r: Reader, sampleType: SampleType) returns (res: Result<(FixedFields, nat)>)
    modifies r
    ensures res.Ok? <==> Fits(r.data, old(r.pos), FixedBytes(sampleType))
    ensures res.Ok? ==> res.value.0 == FixedFieldsAt(r.data, old(r.pos), sampleType.identifier, sampleType.ip,
                                                     sampleType.tid, sampleType.time)
                        && res.value.1 == FixedBytes(sampleType)
                        && r.pos == old(r.pos) + FixedBytes(sampleType)
    ensures res.Err? ==> res.error == UnexpectedEof
  {
    var leading := ReadLeadingSampleFields(r, sampleType.identifier, sampleType.ip, sampleType.tid, sampleType.time);
    if leading.Err? { return Err(leading.error); }
    var trailing := SkipTrailingSampleFields(r, sampleType.addr, sampleType.id, sampleType.streamId, sampleType.cpu,
                                             sampleType.period);
    if trailing.Err? { return Err(trailing.error); }
    return Ok((leading.value, LeadingBytes(sampleType.identifier, sampleType.ip, sampleType.tid, sampleType.time)
                              + trailing.value));
  }

  /** The PERF_SAMPLE_CALLCHAIN block: `nr`, then `nr` reads of one address. */
  method ReadCallchain(r: Reader) returns (res: Result<seq<U64>>)
    modifies r
    ensures res.Ok? <==> CallchainAt(r.data, old(r.pos)).Ok?
    ensures res.Ok? ==> res.value == CallchainAt(r.data, old(r.pos)).value.value
                        && r.pos == CallchainAt(r.data, old(r.pos)).value.next
    ensures res.Err? ==> res.error == UnexpectedEof
  {
    ghost var q := r.pos;
    var nr := r.ReadU64();
    if nr.Err? { return Err(nr.error); }
    var ips: seq<U64> := [];
    var k: nat := 1;
    while k <= nr.value
      invariant 1 <= k <= nr.value + 1 && |ips| == k - 1
      invariant r.pos == q + 8 + 8 * |ips| <= |r.data|
      invariant ips == U64sAt(r.data, q + 8, |ips|)
      decreases nr.value + 1 - k
    {
      var ip := r.ReadU64();
      if ip.Err? { return Err(ip.error); }
      ips := ips + [ip.value];
      k := k + 1;
    }
    return Ok(ips);
  }

  /** The PERF_SAMPLE_RAW block: `size`, then `RawPadding(size)` single-byte reads. */
  method SkipRaw(r: Reader) returns (res: Result<()>)
    modifies r
    ensures res.Ok? <==> RawAt(r.data, old(r.pos)).Ok?
    ensures res.Ok? ==> r.pos == RawAt(r.data, old(r.pos)).value
    ensures res.Err? ==> res.error == UnexpectedEof
  {
    ghost var q := r.pos;
    var size := r.ReadU32();
    if size.Err? { return Err(size.error); }
    var n := RawPadding(size.value);
    var k: nat := 1;
    while k <= n
      invariant 1 <= k <= n + 1
      invariant r.pos == q + 4 + (k - 1) <= |r.data|
      decreases n + 1 - k
    {
      var byte := r.ReadU8();
      if byte.Err? { return Err(byte.error); }
      k := k + 1;
    }
    return Ok(());
  }

  /** `read_sample_event`: reads the record payload at the cursor, emitting
      the sample (returned here) when the thread id, the time and the call
      chain were all read. */
  method ReadSampleEvent(r: Reader, sampleType: SampleType, oracle: Oracle, base: U64) returns (res: Result<SampleOut>)
    modifies r
    ensures res.Ok? <==> SampleAt(r.data, old(r.pos), sampleType, oracle, base).Ok?
    ensures res.Ok? ==> res.value == SampleAt(r.data, old(r.pos), sampleType, oracle, base).value.value
                        && r.pos == SampleAt(r.data, old(r.pos), sampleType, oracle, base).value.next
    ensures res.Err? ==> res.error == SampleAt(r.data, old(r.pos), sampleType, oracle, base).error
  {
    var fixed := ReadFixedSampleFields(r, sampleType);
    if fixed.Err? { return Err(fixed.error); }
    if sampleType.read {
      return Err(ReadFormatUnimplemented);
    }
    res := ReadSampleTail(r, sampleType.callchain, sampleType.raw, fixed.value.0, fixed.value.1, oracle, base);
  }

  /** The CALLCHAIN and RAW blocks of `read_sample_event` and the emission
      of the sample, after `bytesRead` bytes of fixed fields. */
  method ReadSampleTail(r: Reader, hasCallchain: bool, hasRaw: bool, f: FixedFields, bytesRead: nat,
                        oracle: Oracle, base: U64) returns (res: Result<SampleOut>)
    modifies r
    ensures var spec := SampleTailAt(r.data, old(r.pos), hasCallchain, hasRaw, f, bytesRead, oracle, base);
            && (res.Ok? <==> spec.Ok?)
            && (res.Ok? ==> res.value == spec.value.value && r.pos == spec.value.next)
            && (res.Err? ==> res.error == spec.error)
  {
    ghost var q := r.pos;
    var count := bytesRead;
    var callchain: Option<seq<U64>> := None;
    if hasCallchain {
      var ips := ReadCallchain(r);
      if ips.Err? { return Err(ips.error); }
      callchain := Some(ips.value);
      count := count + 8 * (|ips.value| + 1);
    }
    assert OptionalCallchainAt(r.data, q, hasCallchain) == Ok(Decoded(callchain, r.pos));
    assert count == bytesRead + (r.pos - q);
    if hasRaw {
      var skipped := SkipRaw(r);
      if skipped.Err? { return Err(skipped.error); }
    }
    if f.tid.Some? && f.timestamp.Some? && callchain.Some? {
      var stacktrace := Symbolize(oracle, base, callchain.value);
      if stacktrace.None? { return Err(LookupFailed); }
      return Ok(SampleOut(count, Some(Sample(f.tid.value, f.timestamp.value, stacktrace.value))));
    }
    return Ok(SampleOut(count, None));
  }

  /** The sample after the fixed fields carries the kept thread id and
      time and one looked-up name per call-chain address, in call-chain
      order. */
  lemma TailEmitted(data: seq<Byte>, q: nat, callchain: bool, raw: bool, f: FixedFields, fixed: nat,
                    oracle: Oracle, base: U64)
    requires SampleTailAt(data, q, callchain, raw, f, fixed, oracle, base).Ok?
    requires SampleTailAt(data, q, callchain, raw, f, fixed, oracle, base).value.value.sample.Some?
    ensures var sample := SampleTailAt(data, q, callchain, raw, f, fixed, oracle, base).value.value.sample.value;
            && sample.tid == f.tid.value && sample.timestamp == f.timestamp.value
            && q + 8 + 8 * U64At(data, q) <= |data|
            && |sample.stacktrace| == U64At(data, q)
            && forall i :: 0 <= i < |sample.stacktrace| ==>
                 oracle.lookup(base, U64At(data, q + 8 + 8 * i)) == Some(sample.stacktrace[i])
  {
    var ips := U64sAt(data, q + 8, U64At(data, q));
    assert OptionalCallchainAt(data, q, callchain).value.value == Some(ips);
    assert Symbolize(oracle, base, ips).Some?;
  }

  /** The RAW block is read but not counted: the cursor ends past the
      counted bytes by exactly the RAW block's size field and padded
      payload, at least 4 bytes when RAW is set. */
  lemma TailRawUncounted(data: seq<Byte>, q: nat, callchain: bool, raw: bool, f: FixedFields, fixed: nat,
                         oracle: Oracle, base: U64)
    requires SampleTailAt(data, q, callchain, raw, f, fixed, oracle, base).Ok?
    ensures var d := SampleTailAt(data, q, callchain, raw, f, fixed, oracle, base).value;
            && (d.next - q) - (d.value.bytesRead - fixed) == RawBytes(data, q + ChainBytes(data, q, callchain), raw)
            && (raw ==> RawBytes(data, q + ChainBytes(data, q, callchain), raw) >= 4)
            && (!raw ==> d.next - q == d.value.bytesRead - fixed)
  {
    var chain := OptionalCallchainAt(data, q, callchain);
    assert chain.Ok?;
    assert chain.value.next == q + ChainBytes(data, q, callchain);
  }

  /** With RAW in the layout, the cursor ends at least 4 bytes past the
      count `read_sample_event` returns: the RAW block is read but not
      counted. */
  lemma RawUncounted(data: seq<Byte>, p: nat, t: SampleType, oracle: Oracle, base: U64)
    requires SampleAt(data, p, t, oracle, base).Ok? && t.raw
    ensures SampleAt(data, p, t, oracle, base).value.next >= p + SampleAt(data, p, t, oracle, base).value.value.bytesRead + 4
  {
    var f := FixedFieldsAt(data, p, t.identifier, t.ip, t.tid, t.time);
    SampleAtTail(data, p, t, oracle, base);
    TailRawUncounted(data, p + FixedBytes(t), t.callchain, t.raw, f, FixedBytes(t), oracle, base);
  }

  /** Without RAW in the layout, the count `read_sample_event` returns is
      exactly the bytes it consumed. */
  lemma RawlessCounted(data: seq<Byte>, p: nat, t: SampleType, oracle: Oracle, base: U64)
    requires SampleAt(data, p, t, oracle, base).Ok? && !t.raw
    ensures SampleAt(data, p, t, oracle, base).value.next == p + SampleAt(data, p, t, oracle, base).value.value.bytesRead
  {
    var f := FixedFieldsAt(data, p, t.identifier, t.ip, t.tid, t.time);
    SampleAtTail(data, p, t, oracle, base);
    TailRawUncounted(data, p + FixedBytes(t), t.callchain, t.raw, f, FixedBytes(t), oracle, base);
  }

  /** Once the fixed fields fit and READ is clear, the decoder is the tail
      decoder applied after them. */
  lemma SampleAtTail(data: seq<Byte>, p: nat, t: SampleType, oracle: Oracle, base: U64)
    requires Fits(data, p, FixedBytes(t)) && !t.read
    ensures SampleAt(data, p, t, oracle, base)
         == SampleTailAt(data, p + FixedBytes(t), t.callchain, t.raw,
                         FixedFieldsAt(data, p, t.identifier, t.ip, t.tid, t.time), FixedBytes(t), oracle, base)
  {
  }
}
