/// The perf.data file: src/perf_data_parser/perf_data_parser.rs. The file
/// starts with an 80-byte header naming the attribute and data sections; the
/// attribute section holds fixed-size `perf_event_attr` records, the data
/// section length-prefixed event records. The decoder reads the header,
/// collects the attributes, then walks the data section, following the
/// profiled binary's executable mapping through PERF_RECORD_MMAP2 records and
/// decoding PERF_RECORD_SAMPLE records once a symbolicator exists.
module PerfData {
  import opened Options
  import opened Wire
  import opened Flags
  import opened Symbols
  import EventSample
  import EventMmap2

  /** The version string `read_header` demands, "PERFILE2". */
  const PERF_MAGIC: seq<Byte> := [0x50, 0x45, 0x52, 0x46, 0x49, 0x4C, 0x45, 0x32]

  /** The bytes `read_header` consumes: the magic, header_size and
      attr_size (8 each), three section descriptors (16 each) and the
      feature bitmap (8). */
  const HEADER_SIZE: nat := 80

  /** The magic is ASCII, so `String::from_utf8` accepts it. */
  lemma MagicIsUtf8()
    ensures ValidUtf8(PERF_MAGIC)
  {
    AsciiIsValidUtf8(PERF_MAGIC);
  }

  datatype SectionInfo = SectionInfo(offset: U64, size: U64)

  /** The parts of the header the decoder keeps: the event-types section
      descriptor, header_size and the feature bitmap are read and dropped. */
  datatype Header = Header(attributeSize: U64, attributeSection: SectionInfo, dataSection: SectionInfo)

  /** What `read_header` does with the bytes at `p`. */
  function HeaderAt(data: seq<Byte>, p: nat): (r: Result<Decoded<Header>>)
    ensures r.Ok? <==> Fits(data, p, HEADER_SIZE) && data[p..p + 8] == PERF_MAGIC
    ensures r.Ok? ==> r.value.next == p + HEADER_SIZE
    ensures Fits(data, p, 8) ==>
              ((r == Err(VersionNotUtf8) || r == Err(WrongVersion)) <==> data[p..p + 8] != PERF_MAGIC)
    ensures r.Err? ==> r.error == UnexpectedEof || r.error == VersionNotUtf8 || r.error == WrongVersion
  {
    MagicIsUtf8();
    if !Fits(data, p, 8) then Err(UnexpectedEof)
    else if !ValidUtf8(data[p..p + 8]) then Err(VersionNotUtf8)
    else if data[p..p + 8] != PERF_MAGIC then Err(WrongVersion)
    else if !Fits(data, p, HEADER_SIZE) then Err(UnexpectedEof)
    else
      Ok(Decoded(Header(U64At(data, p + 16),
                        SectionInfo(U64At(data, p + 24), U64At(data, p + 32)),
                        SectionInfo(U64At(data, p + 40), U64At(data, p + 48))),
                 p + HEADER_SIZE))
  }

  /** A header as `perf record` writes it. */
  function EncodeHeader(h: Header, headerSize: U64, eventTypes: SectionInfo, features: U64): (bytes: seq<Byte>)
    ensures |bytes| == HEADER_SIZE
  {
    PERF_MAGIC + (EncodeU64(headerSize) + (EncodeU64(h.attributeSize)
    + (EncodeU64(h.attributeSection.offset) + (EncodeU64(h.attributeSection.size)
    + (EncodeU64(h.dataSection.offset) + (EncodeU64(h.dataSection.size)
    + (EncodeU64(eventTypes.offset) + (EncodeU64(eventTypes.size) + EncodeU64(features)))))))))
  }

  /** Decoding an encoded header gives it back and consumes 80 bytes,
      whatever the dropped fields hold. */
  lemma HeaderRoundTrip(data: seq<Byte>, p: nat, h: Header, headerSize: U64, eventTypes: SectionInfo, features: U64)
    requires p + HEADER_SIZE <= |data|
    requires data[p..p + HEADER_SIZE] == EncodeHeader(h, headerSize, eventTypes, features)
    ensures HeaderAt(data, p) == Ok(Decoded(h, p + HEADER_SIZE))
  {
    var e9 := EncodeU64(features);
    var e8 := EncodeU64(eventTypes.size) + e9;
    var e7 := EncodeU64(eventTypes.offset) + e8;
    var e6 := EncodeU64(h.dataSection.size) + e7;
    var e5 := EncodeU64(h.dataSection.offset) + e6;
    var e4 := EncodeU64(h.attributeSection.size) + e5;
    var e3 := EncodeU64(h.attributeSection.offset) + e4;
    var e2 := EncodeU64(h.attributeSize) + e3;
    var e1 := EncodeU64(headerSize) + e2;
    var w := data[p..p + HEADER_SIZE];
    assert data[p..p + 8] == w[..8] == PERF_MAGIC;
    assert data[p + 8..p + HEADER_SIZE] == w[8..] == e1;
    PeelU64(data, p + 8, headerSize, e2);
    PeelU64(data, p + 16, h.attributeSize, e3);
    PeelU64(data, p + 24, h.attributeSection.offset, e4);
    PeelU64(data, p + 32, h.attributeSection.size, e5);
    PeelU64(data, p + 40, h.dataSection.offset, e6);
    PeelU64(data, p + 48, h.dataSection.size, e7);
  }

  /** `read_section_info`: an offset and a size. */
  method ReadSectionInfo(r: Reader) returns (res: Result<SectionInfo>)
    modifies r
    ensures res.Ok? <==> old(r.pos) + 16 <= |r.data|
    ensures res.Ok? ==> res.value == SectionInfo(U64At(r.data, old(r.pos)), U64At(r.data, old(r.pos) + 8))
                        && r.pos == old(r.pos) + 16
    ensures res.Err? ==> res.error == UnexpectedEof
  {
    var offset := r.ReadU64();
    if offset.Err? { return Err(offset.error); }
    var size := r.ReadU64();
    if size.Err? { return Err(size.error); }
    return Ok(SectionInfo(offset.value, size.value));
  }

  /** `read_header`: the version check, then the fixed fields. */
  method ReadHeader(r: Reader) returns (res: Result<Header>)
    modifies r
    ensures var spec := HeaderAt(r.data, old(r.pos));
            && (res.Ok? <==> spec.Ok?)
            && (res.Ok? ==> res.value == spec.value.value && r.pos == spec.value.next)
            && (res.Err? ==> res.error == spec.error)
  {
    var version := r.ReadVersion();
    if version.Err? { return Err(version.error); }
    if version.value != PERF_MAGIC {
      return Err(WrongVersion);
    }
    var headerSize := r.ReadU64();
    if headerSize.Err? { return Err(headerSize.error); }
    var attributeSize := r.ReadU64();
    if attributeSize.Err? { return Err(attributeSize.error); }
    var attributeSection := ReadSectionInfo(r);
    if attributeSection.Err? { return Err(attributeSection.error); }
    var dataSection := ReadSectionInfo(r);
    if dataSection.Err? { return Err(dataSection.error); }
    var eventTypesSection := ReadSectionInfo(r);
    if eventTypesSection.Err? { return Err(eventTypesSection.error); }
    var features := r.ReadU64();
    if features.Err? { return Err(features.error); }
    return Ok(Header(attributeSize.value, attributeSection.value, dataSection.value));
  }

  /** The record types `EventType` names: the kernel's PERF_RECORD_* types
      (codes 1 to 21) and the ones `perf` itself adds (codes 64 to 81). */
  datatype EventType =
    Mmap | Lost | Comm | Exit | Throttle | Unthrottle | Fork | Read | Sample | Mmap2 | Aux | ItraceStart
    | LostSamples | Switch | SwitchCpuWide | Namespaces | Ksymbol | BpfEvent | Cgroup | TextPoke
    | AuxOutputHwId | HeaderAttr | HeaderEventType | HeaderTracingData | HeaderBuildId | FinishedRound
    | IdIndex | AuxtraceInfo | Auxtrace | AuxtraceError | ThreadMap | CpuMap | StatConfig | Stat | StatRound
    | EventUpdate | TimeConv | HeaderFeature | Compressed

  /** The code of each record type. */
  function Code(t: EventType): (c: U32)
    ensures 1 <= c <= 21 || 64 <= c <= 81
  {
    match t
    case Mmap => 1
    case Lost => 2
    case Comm => 3
    case Exit => 4
    case Throttle => 5
    case Unthrottle => 6
    case Fork => 7
    case Read => 8
    case Sample => 9
    case Mmap2 => 10
    case Aux => 11
    case ItraceStart => 12
    case LostSamples => 13
    case Switch => 14
    case SwitchCpuWide => 15
    case Namespaces => 16
    case Ksymbol => 17
    case BpfEvent => 18
    case Cgroup => 19
    case TextPoke => 20
    case AuxOutputHwId => 21
    case HeaderAttr => 64
    case HeaderEventType => 65
    case HeaderTracingData => 66
    case HeaderBuildId => 67
    case FinishedRound => 68
    case IdIndex => 69
    case AuxtraceInfo => 70
    case Auxtrace => 71
    case AuxtraceError => 72
    case ThreadMap => 73
    case CpuMap => 74
    case StatConfig => 75
    case Stat => 76
    case StatRound => 77
    case EventUpdate => 78
    case TimeConv => 79
    case HeaderFeature => 80
    case Compressed => 81
  }

  /** `EventType::from(n)`: codes 1 to 21 and 64 to 81 name a type; any
      other code reaches `unreachable!()`, modelled as an error. */
  function EventTypeFrom(n: U32): (r: Result<EventType>)
    ensures r.Ok? <==> 1 <= n <= 21 || 64 <= n <= 81
    ensures r.Err? ==> r.error == UnknownEventType(n)
  {
    match n
    case 1 => Ok(Mmap)
    case 2 => Ok(Lost)
    case 3 => Ok(Comm)
    case 4 => Ok(Exit)
    case 5 => Ok(Throttle)
    case 6 => Ok(Unthrottle)
    case 7 => Ok(Fork)
    case 8 => Ok(Read)
    case 9 => Ok(Sample)
    case 10 => Ok(Mmap2)
    case 11 => Ok(Aux)
    case 12 => Ok(ItraceStart)
    case 13 => Ok(LostSamples)
    case 14 => Ok(Switch)
    case 15 => Ok(SwitchCpuWide)
    case 16 => Ok(Namespaces)
    case 17 => Ok(Ksymbol)
    case 18 => Ok(BpfEvent)
    case 19 => Ok(Cgroup)
    case 20 => Ok(TextPoke)
    case 21 => Ok(AuxOutputHwId)
    case 64 => Ok(HeaderAttr)
    case 65 => Ok(HeaderEventType)
    case 66 => Ok(HeaderTracingData)
    case 67 => Ok(HeaderBuildId)
    case 68 => Ok(FinishedRound)
    case 69 => Ok(IdIndex)
    case 70 => Ok(AuxtraceInfo)
    case 71 => Ok(Auxtrace)
    case 72 => Ok(AuxtraceError)
    case 73 => Ok(ThreadMap)
    case 74 => Ok(CpuMap)
    case 75 => Ok(StatConfig)
    case 76 => Ok(Stat)
    case 77 => Ok(StatRound)
    case 78 => Ok(EventUpdate)
    case 79 => Ok(TimeConv)
    case 80 => Ok(HeaderFeature)
    case 81 => Ok(Compressed)
    case _ => Err(UnknownEventType(n))
  }

  /** `EventType::from` maps each type's code back to that type, so the
      mapping is one-to-one on the codes it accepts. */
  lemma CodeRoundTrip(t: EventType)
    ensures EventTypeFrom(Code(t)) == Ok(t)
  {
  }

  /** Every type `EventType::from` produces carries the code it came from. */
  lemma EventTypeFromCode(n: U32)
    requires EventTypeFrom(n).Ok?
    ensures Code(EventTypeFrom(n).value) == n
  {
    if n <= 21 {
      KernelTypeCode(n);
    } else {
      UserTypeCode(n);
    }
  }

  lemma KernelTypeCode(n: U32)
    requires 1 <= n <= 21
    ensures Code(EventTypeFrom(n).value) == n
  {
  }

  lemma UserTypeCode(n: U32)
    requires 64 <= n <= 81
    ensures Code(EventTypeFrom(n).value) == n
  {
  }

  /** A record header: the type and the size of the whole record, header
      included. */
  datatype EventHeader = EventHeader(eventType: EventType, eventSize: U16)

  /** What `read_event_header` does with the bytes at `p`: a u32 type, a u16
      `misc` that is dropped and a u16 size. The type is converted as soon
      as it is read, so an unknown code stops the decoder before the rest of
      the header is read. */
  function EventHeaderAt(data: seq<Byte>, p: nat): (r: Result<Decoded<EventHeader>>)
    ensures r.Ok? <==> Fits(data, p, 8) && EventTypeFrom(U32At(data, p)).Ok?
    ensures r.Ok? ==> && r.value.next == p + 8
                      && Code(r.value.value.eventType) == U32At(data, p)
                      && r.value.value.eventSize == U16At(data, p + 6)
    ensures r.Err? ==> r.error == UnexpectedEof || (Fits(data, p, 4) && r.error == UnknownEventType(U32At(data, p)))
  {
    if !Fits(data, p, 4) then Err(UnexpectedEof)
    else
      match EventTypeFrom(U32At(data, p))
      case Err(e) => Err(e)
      case Ok(eventType) =>
        EventTypeFromCode(U32At(data, p));
        if !Fits(data, p, 8) then Err(UnexpectedEof)
        else Ok(Decoded(EventHeader(eventType, U16At(data, p + 6)), p + 8))
  }

  /** `read_event_header`. */
  method ReadEventHeader(r: Reader) returns (res: Result<EventHeader>)
    modifies r
    ensures var spec := EventHeaderAt(r.data, old(r.pos));
            && (res.Ok? <==> spec.Ok?)
            && (res.Ok? ==> res.value == spec.value.value && r.pos == spec.value.next)
            && (res.Err? ==> res.error == spec.error)
  {
    var code := r.ReadU32();
    if code.Err? { return Err(code.error); }
    var eventType := EventTypeFrom(code.value);
    if eventType.Err? { return Err(eventType.error); }
    var misc := r.ReadU16();
    if misc.Err? { return Err(misc.error); }
    var eventSize := r.ReadU16();
    if eventSize.Err? { return Err(eventSize.error); }
    return Ok(EventHeader(eventType.value, eventSize.value));
  }

  /** `bit(n)`, i.e. `1 << n`; a shift of 64 or more overflows. */
  function Bit(n: nat): nat
    requires n < 64
  {
    Pow2(n)
  }

  /** `bit(n)` sets exactly bit n, so the flag defined as `bit(n)` is the
      one `from_bits_truncate` reads from bit n. */
  lemma BitIsOneFlag(n: nat, k: nat)
    requires n < 64
    ensures BitSet(Bit(n), k) <==> k == n
  {
    Pow2Bit(n, k);
  }

  /** An attribute: the sampling period or frequency and the sample layout.
      The rest of `perf_event_attr` is skipped. */
  datatype Attribute = Attribute(frequency: U64, sampleType: EventSample.SampleType)

  /** The bytes of an attribute the decoder reads: type and size (u32),
      config, sample_period (or sample_freq) and sample_type (u64). */
  const ATTRIBUTE_FIELDS_SIZE: nat := 32

  function AttributeAt(data: seq<Byte>, q: nat): Attribute
    requires Fits(data, q, ATTRIBUTE_FIELDS_SIZE)
  {
    Attribute(U64At(data, q + 16), EventSample.SampleTypeFromBits(U64At(data, q + 24)))
  }

  /** The reads at the top of the attribute loop: type, size, config,
      sample_period and sample_type. */
  method ReadAttributeFields(r: Reader) returns (res: Result<Attribute>)
    modifies r
    ensures res.Ok? <==> Fits(r.data, old(r.pos), ATTRIBUTE_FIELDS_SIZE)
    ensures res.Ok? ==> res.value == AttributeAt(r.data, old(r.pos)) && r.pos == old(r.pos) + ATTRIBUTE_FIELDS_SIZE
    ensures res.Err? ==> res.error == UnexpectedEof
  {
    var eventType := r.ReadU32();
    if eventType.Err? { return Err(eventType.error); }
    var size := r.ReadU32();
    if size.Err? { return Err(size.error); }
    var config := r.ReadU64();
    if config.Err? { return Err(config.error); }
    var samplePeriodOrFrequency := r.ReadU64();
    if samplePeriodOrFrequency.Err? { return Err(samplePeriodOrFrequency.error); }
    var sampleType := r.ReadU64();
    if sampleType.Err? { return Err(sampleType.error); }
    return Ok(Attribute(samplePeriodOrFrequency.value, EventSample.SampleTypeFromBits(sampleType.value)));
  }

  /** `x as i64` for a u64 `x`: the same 64 bits read as two's complement. */
  function AsI64(x: U64): (v: int)
    ensures -0x8000_0000_0000_0000 <= v < 0x8000_0000_0000_0000
    ensures (x - v) % 0x1_0000_0000_0000_0000 == 0
  {
    if x < 0x8000_0000_0000_0000 then x else x - 0x1_0000_0000_0000_0000
  }

  /** The attribute loop of `read_attribute_section`, from the cursor at
      `pos` with `bytesRead` of the section's `size` bytes counted: each
      round reads 32 bytes and then seeks by `attributeSize - 32`, so the
      cursor moves by `attributeSize`. With `attributeSize` 0 the seek goes
      back to the same record and the loop never ends. */
  function AttributeLoop(data: seq<Byte>, pos: nat, attributeSize: U64, bytesRead: nat, size: U64)
    : (r: Result<seq<Attribute>>)
    ensures r.Err? ==> r.error == UnexpectedEof || r.error == InvalidSeek || r.error == Diverges
    decreases if bytesRead < size then size - bytesRead else 0
  {
    if size <= bytesRead then Ok([])
    else if !Fits(data, pos, ATTRIBUTE_FIELDS_SIZE) then Err(UnexpectedEof)
    else
      var next := pos + ATTRIBUTE_FIELDS_SIZE + (AsI64(attributeSize) - 32);
      if !(0 <= next < SEEK_LIMIT) then Err(InvalidSeek)
      else if attributeSize == 0 then Err(Diverges)
      else
        match AttributeLoop(data, next, attributeSize, bytesRead + attributeSize, size)
        case Err(e) => Err(e)
        case Ok(rest) => Ok([AttributeAt(data, pos)] + rest)
  }

  /** `items` put in front of whatever the rest of a loop produces. */
  function Prepend<T>(items: seq<T>, rest: Result<seq<T>>): (r: Result<seq<T>>)
    ensures r.Ok? <==> rest.Ok?
    ensures r.Ok? ==> r.value == items + rest.value
    ensures r.Err? ==> r.error == rest.error
  {
    match rest
    case Ok(more) => Ok(items + more)
    case Err(e) => Err(e)
  }

  lemma PrependNothing<T>(rest: Result<seq<T>>)
    ensures Prepend([], rest) == rest
  {
    if rest.Ok? {
      assert [] + rest.value == rest.value;
    }
  }

  lemma PrependTwice<T>(items: seq<T>, more: seq<T>, rest: Result<seq<T>>)
    ensures Prepend(items, Prepend(more, rest)) == Prepend(items + more, rest)
  {
    if rest.Ok? {
      assert items + (more + rest.value) == (items + more) + rest.value;
    }
  }

  lemma PrependStep<T>(whole: Result<seq<T>>, items: seq<T>, rest: Result<seq<T>>, more: seq<T>, next: Result<seq<T>>)
    requires whole == Prepend(items, rest) && rest == Prepend(more, next)
    ensures whole == Prepend(items + more, next)
  {
    PrependTwice(items, more, next);
  }

  /** One round of the attribute loop once the fields are read and the seek
      succeeded. */
  lemma AttributeLoopContinues(data: seq<Byte>, pos: nat, attributeSize: U64, bytesRead: nat, size: U64, next: nat)
    requires bytesRead < size && Fits(data, pos, ATTRIBUTE_FIELDS_SIZE)
    requires next == pos + AsI64(attributeSize) && next < SEEK_LIMIT && attributeSize != 0
    ensures AttributeLoop(data, pos, attributeSize, bytesRead, size)
         == Prepend([AttributeAt(data, pos)], AttributeLoop(data, next, attributeSize, bytesRead + attributeSize, size))
  {
  }

  /** One round of the loop of `read_attribute_section`: the fields, then
      the seek to the next attribute. An error ends the loop. */
  method ReadAttributeRound(r: Reader, attributeSize: U64, bytesRead: nat, size: U64) returns (res: Result<Attribute>)
    requires bytesRead < size
    modifies r
    ensures res.Err? ==> AttributeLoop(r.data, old(r.pos), attributeSize, bytesRead, size) == Err(res.error)
    ensures res.Ok? ==> attributeSize > 0
    ensures res.Ok? ==> AttributeLoop(r.data, old(r.pos), attributeSize, bytesRead, size)
                        == Prepend([res.value], AttributeLoop(r.data, r.pos, attributeSize, bytesRead + attributeSize, size))
  {
    var start := r.pos;
    res := ReadAttributeFields(r);
    if res.Err? { return; }
    var seek := r.SeekRelative(AsI64(attributeSize) - 32);
    if seek.Err? { return Err(seek.error); }
    if attributeSize == 0 { return Err(Diverges); }
    AttributeLoopContinues(r.data, start, attributeSize, bytesRead, size, r.pos);
  }

  /** The attribute section: the seek to its offset, then the loop. */
  function AttributeSection(data: seq<Byte>, header: Header): Result<seq<Attribute>>
  {
    if header.attributeSection.offset >= SEEK_LIMIT then Err(InvalidSeek)
    else AttributeLoop(data, header.attributeSection.offset, header.attributeSize, 0, header.attributeSection.size)
  }

  /** `read_attribute_section`: seek to the section, then read attributes
      until `size` bytes are counted. Where the loop would repeat the same
      record forever (`attributeSize` 0) it stops with `Diverges`. */
  method ReadAttributeSection(r: Reader, header: Header) returns (res: Result<seq<Attribute>>)
    modifies r
    ensures res == AttributeSection(r.data, header)
  {
    var size := header.attributeSection.size;
    var attributeSize := header.attributeSize;
    var seek := r.Seek(header.attributeSection.offset);
    if seek.Err? { return Err(seek.error); }
    var attributes := [];
    var bytesRead: nat := 0;
    ghost var whole := AttributeLoop(r.data, r.pos, attributeSize, bytesRead, size);
    ghost var rest := whole;
    PrependNothing(whole);
    while bytesRead < size
      invariant rest == AttributeLoop(r.data, r.pos, attributeSize, bytesRead, size)
      invariant whole == Prepend(attributes, rest)
      decreases size - bytesRead
    {
      var attribute := ReadAttributeRound(r, attributeSize, bytesRead, size);
      if attribute.Err? { return Err(attribute.error); }
      bytesRead := bytesRead + attributeSize;
      ghost var next := AttributeLoop(r.data, r.pos, attributeSize, bytesRead, size);
      PrependStep(whole, attributes, rest, [attribute.value], next);
      attributes := attributes + [attribute.value];
      rest := next;
    }
    assert attributes + [] == attributes;
    return Ok(attributes);
  }

  /** The number of records in a section of `n` bytes cut into records of `d`. */
  function Records(n: int, d: nat): nat
    requires d > 0
  {
    if n <= 0 then 0 else (n + d - 1) / d
  }

  lemma RecordsStep(n: int, d: nat)
    requires n > 0 && d > 0
    ensures Records(n, d) == 1 + Records(n - d, d)
  {
    if n - d <= 0 {
      DivModUnique(n + d - 1, d, 1, n - 1);
    } else {
      var x := n - 1;
      DivModUnique(x + d, d, x / d + 1, x % d);
    }
  }

  /** One round of the attribute loop, unfolded. */
  lemma AttributeLoopStep(data: seq<Byte>, pos: nat, attributeSize: U64, bytesRead: nat, size: U64)
    requires bytesRead < size
    requires AttributeLoop(data, pos, attributeSize, bytesRead, size).Ok?
    ensures Fits(data, pos, ATTRIBUTE_FIELDS_SIZE) && attributeSize > 0
    ensures 0 <= pos + AsI64(attributeSize) < SEEK_LIMIT
    ensures AttributeLoop(data, pos + AsI64(attributeSize), attributeSize, bytesRead + attributeSize, size).Ok?
    ensures AttributeLoop(data, pos, attributeSize, bytesRead, size).value
         == [AttributeAt(data, pos)] + AttributeLoop(data, pos + AsI64(attributeSize), attributeSize, bytesRead + attributeSize, size).value
  {
  }

  /** A section of `size` bytes holds ceil(size / attributeSize) attributes. */
  lemma {:induction false} AttributeCount(data: seq<Byte>, pos: nat, attributeSize: U64, bytesRead: nat, size: U64)
    requires AttributeLoop(data, pos, attributeSize, bytesRead, size).Ok?
    ensures attributeSize > 0 || size <= bytesRead
    ensures attributeSize > 0 ==>
      |AttributeLoop(data, pos, attributeSize, bytesRead, size).value| == Records(size - bytesRead, attributeSize)
    decreases if bytesRead < size then size - bytesRead else 0
  {
    if bytesRead < size {
      AttributeLoopStep(data, pos, attributeSize, bytesRead, size);
      var next := pos + AsI64(attributeSize);
      AttributeCount(data, next, attributeSize, bytesRead + attributeSize, size);
      RecordsStep(size - bytesRead, attributeSize);
    }
  }

  lemma NextOffset(pos: nat, d: nat, i: nat)
    requires i > 0
    ensures pos + i * d == (pos + d) + (i - 1) * d
  {
  }

  /** The attributes come in file order, one every `attributeSize` bytes
      (for sizes below 2^63, where `as i64` keeps the value): the `i`-th is
      the one at `offset`, `i * attributeSize` bytes past the first. */
  lemma {:induction false} AttributesInOrder(data: seq<Byte>, pos: nat, attributeSize: U64, bytesRead: nat, size: U64,
                                             i: nat, offset: nat)
    requires attributeSize < 0x8000_0000_0000_0000
    requires AttributeLoop(data, pos, attributeSize, bytesRead, size).Ok?
    requires i < |AttributeLoop(data, pos, attributeSize, bytesRead, size).value|
    requires offset == pos + i * attributeSize
    ensures Fits(data, offset, ATTRIBUTE_FIELDS_SIZE)
    ensures AttributeLoop(data, pos, attributeSize, bytesRead, size).value[i] == AttributeAt(data, offset)
    decreases i
  {
    if bytesRead >= size {
    } else {
      AttributeLoopStep(data, pos, attributeSize, bytesRead, size);
      if i > 0 {
        var next := pos + attributeSize;
        NextOffset(pos, attributeSize, i);
        AttributesInOrder(data, next, attributeSize, bytesRead + attributeSize, size, i - 1, offset);
      }
    }
  }

  /** What `read_data_section` works with besides the file: the sample
      layout of the first attribute, the profiled binary's file name and the
      symbolicator it can build. */
  datatype Config = Config(sampleType: EventSample.SampleType, objectName: string, oracle: Oracle)

  /** One record of the data section, decoded: its size field, the bytes its
      decoder reports (`event_bytes_read`), where the cursor stands after the
      decoder, the sample it emitted and the symbolicator's base address
      after the record. */
  datatype Step = Step(eventSize: U16, eventBytes: nat, cursor: nat, sample: Option<EventSample.Sample>, base: Option<U64>)

  /** The type of the record at `p`, when its header decodes. */
  function RecordType(data: seq<Byte>, p: nat): Option<EventType>
  {
    match EventHeaderAt(data, p)
    case Ok(h) => Some(h.value.eventType)
    case Err(_) => None
  }

  /** The body of the data loop for the record at `pos`, up to the seek:
      MMAP2 records are decoded and, when one maps the profiled binary, a
      symbolicator is built for its base address (replacing any earlier
      one); SAMPLE records are decoded once a symbolicator exists; every
      other record is left for the seek to skip. */
  function DataStep(data: seq<Byte>, pos: nat, base: Option<U64>, cfg: Config): (r: Result<Step>)
    ensures r.Ok? ==> Fits(data, pos, 8)
    ensures r.Ok? ==> r.value.cursor >= pos + 8 + r.value.eventBytes
  {
    match EventHeaderAt(data, pos)
    case Err(e) => Err(e)
    case Ok(h) =>
      var header := h.value;
      var q := h.next;
      if header.eventType == Mmap2 then
        match EventMmap2.Mmap2At(data, q, cfg.objectName)
        case Err(e) => Err(e)
        case Ok(m) =>
          var found := m.value.objectBaseAddress;
          if found.Some? && !cfg.oracle.load(found.value) then Err(SymbolicatorFailed)
          else Ok(Step(header.eventSize, m.value.bytesRead, m.next, None, if found.Some? then found else base))
      else if header.eventType == Sample && base.Some? then
        match EventSample.SampleAt(data, q, cfg.sampleType, cfg.oracle, base.value)
        case Err(e) => Err(e)
        case Ok(d) => Ok(Step(header.eventSize, d.value.bytesRead, d.next, d.value.sample, base))
      else
        Ok(Step(header.eventSize, 0, q, None, base))
  }

  /** The symbolicator changes only at an MMAP2 record of the profiled
      binary, and only to a base address it could be built for; every such
      record replaces the one before, so the last match wins; a failure to
      build it comes from such a record too. */
  lemma SymbolicatorFromMmap2(data: seq<Byte>, pos: nat, base: Option<U64>, cfg: Config)
    ensures var r := DataStep(data, pos, base, cfg);
            && (r.Ok? && RecordType(data, pos) != Some(Mmap2) ==> r.value.base == base)
            && (r.Ok? && r.value.base != base ==> r.value.base.Some? && cfg.oracle.load(r.value.base.value))
            && (r == Err(SymbolicatorFailed) ==> RecordType(data, pos) == Some(Mmap2))
            && (r.Ok? && RecordType(data, pos) == Some(Mmap2) ==>
                  var m := EventMmap2.Mmap2At(data, pos + 8, cfg.objectName);
                  m.Ok? && (m.value.value.objectBaseAddress.Some? ==> r.value.base == m.value.value.objectBaseAddress))
  {
  }

  /** Samples come only from SAMPLE records once a symbolicator exists; a
      SAMPLE record before that, and any record other than MMAP2 and
      SAMPLE, is skipped whole by the seek. */
  lemma SamplesNeedSymbolicator(data: seq<Byte>, pos: nat, base: Option<U64>, cfg: Config)
    ensures var r := DataStep(data, pos, base, cfg);
            && (r.Ok? && r.value.sample.Some? ==> RecordType(data, pos) == Some(Sample) && base.Some?)
            && (r.Ok? && (base.None? || RecordType(data, pos) !in {Some(Mmap2), Some(Sample)}) && RecordType(data, pos) != Some(Mmap2) ==>
                  r.value.eventBytes == 0 && r.value.cursor == pos + 8 && r.value.sample.None?)
  {
  }

  /** The samples the data loop handed to `process_sample`, in order, and
      the error that stopped it, if any. */
  datatype DataRun = DataRun(samples: seq<EventSample.Sample>, error: Option<Error>)

  function Emitted(sample: Option<EventSample.Sample>): seq<EventSample.Sample>
  {
    if sample.Some? then [sample.value] else []
  }

  /** `samples` handed out before whatever the rest of the loop does. */
  function Then(samples: seq<EventSample.Sample>, rest: DataRun): DataRun
  {
    DataRun(samples + rest.samples, rest.error)
  }

  /** The position the seek at the end of a round lands on:
      `event_size as i64 - 8 - event_bytes_read as i64` from the cursor. */
  function SeekTarget(step: Step): int
  {
    step.cursor + step.eventSize - 8 - step.eventBytes
  }

  /** The seek after a record never lands before the record's end as its
      size field gives it, so it never lands before the start of the file:
      the decoders never report more bytes than they consumed. Unless the
      record is a decoded SAMPLE with RAW in its layout (`RawSkipOvershoots`),
      it lands exactly there, and the next header is read from the next
      record. */
  lemma SeekPastRecord(data: seq<Byte>, pos: nat, base: Option<U64>, cfg: Config)
    requires DataStep(data, pos, base, cfg).Ok?
    ensures SeekTarget(DataStep(data, pos, base, cfg).value) >= pos + U16At(data, pos + 6)
    ensures !(RecordType(data, pos) == Some(Sample) && base.Some? && cfg.sampleType.raw) ==>
              SeekTarget(DataStep(data, pos, base, cfg).value) == pos + U16At(data, pos + 6)
  {
    if RecordType(data, pos) != Some(Sample) || base.None? {
      OtherRecordSeek(data, pos, base, cfg);
    } else if cfg.sampleType.raw {
      RawSkipOvershoots(data, pos, base, cfg);
    } else {
      RawlessSampleSeek(data, pos, base, cfg);
    }
  }

  /** A record other than a decoded SAMPLE counts every byte after its
      header: the seek lands exactly at the record's end. */
  lemma OtherRecordSeek(data: seq<Byte>, pos: nat, base: Option<U64>, cfg: Config)
    requires DataStep(data, pos, base, cfg).Ok?
    requires RecordType(data, pos) != Some(Sample) || base.None?
    ensures SeekTarget(DataStep(data, pos, base, cfg).value) == pos + U16At(data, pos + 6)
  {
  }

  /** Without RAW in the sample layout, the seek after a decoded SAMPLE
      record lands exactly at the record's end. */
  lemma RawlessSampleSeek(data: seq<Byte>, pos: nat, base: Option<U64>, cfg: Config)
    requires DataStep(data, pos, base, cfg).Ok?
    requires RecordType(data, pos) == Some(Sample) && base.Some? && !cfg.sampleType.raw
    ensures SeekTarget(DataStep(data, pos, base, cfg).value) == pos + U16At(data, pos + 6)
  {
    var h := EventHeaderAt(data, pos);
    assert h.Ok? && h.value.value.eventType == Sample && h.value.next == pos + 8;
    var step := DataStep(data, pos, base, cfg).value;
    SampleStep(data, pos, base, cfg);
    EventSample.RawlessCounted(data, pos + 8, cfg.sampleType, cfg.oracle, base.value);
    assert step.cursor == pos + 8 + step.eventBytes;
  }

  /** A decoded SAMPLE record: the cursor and the count are those of the
      sample decoder on the payload, and the size is the header's. */
  lemma SampleStep(data: seq<Byte>, pos: nat, base: Option<U64>, cfg: Config)
    requires DataStep(data, pos, base, cfg).Ok?
    requires RecordType(data, pos) == Some(Sample) && base.Some?
    ensures var s := EventSample.SampleAt(data, pos + 8, cfg.sampleType, cfg.oracle, base.value);
            var step := DataStep(data, pos, base, cfg).value;
            && s.Ok?
            && step.cursor == s.value.next && step.eventBytes == s.value.value.bytesRead
            && step.eventSize == U16At(data, pos + 6)
  {
    var h := EventHeaderAt(data, pos);
    assert h.Ok? && h.value.value.eventType == Sample && h.value.next == pos + 8;
  }

  /** With RAW in the sample layout, `read_sample_event` reads the RAW block
      but leaves it out of the count it returns, so the seek after a
      decoded SAMPLE record lands at least 4 bytes past the record's end:
      the next header is read from inside the record. */
  lemma RawSkipOvershoots(data: seq<Byte>, pos: nat, base: Option<U64>, cfg: Config)
    requires DataStep(data, pos, base, cfg).Ok?
    requires RecordType(data, pos) == Some(Sample) && base.Some? && cfg.sampleType.raw
    ensures SeekTarget(DataStep(data, pos, base, cfg).value) >= pos + U16At(data, pos + 6) + 4
  {
    var h := EventHeaderAt(data, pos);
    assert h.Ok? && h.value.value.eventType == Sample && h.value.next == pos + 8;
    var step := DataStep(data, pos, base, cfg).value;
    SampleStep(data, pos, base, cfg);
    EventSample.RawUncounted(data, pos + 8, cfg.sampleType, cfg.oracle, base.value);
    assert step.cursor >= pos + 8 + step.eventBytes + 4;
  }

  /** The loop of `read_data_section` from the record at `pos`, with
      `bytesRead` of the section's `size` bytes counted. */
  function DataLoop(data: seq<Byte>, pos: nat, bytesRead: nat, size: U64, base: Option<U64>, cfg: Config): (run: DataRun)
    decreases if bytesRead < size then size - bytesRead else 0, Remaining(data, pos), 2
  {
    if size <= bytesRead then DataRun([], None)
    else RecordRound(data, pos, bytesRead, size, base, cfg)
  }

  /** A round of the data loop on the record at `pos`. */
  function RecordRound(data: seq<Byte>, pos: nat, bytesRead: nat, size: U64, base: Option<U64>, cfg: Config): (run: DataRun)
    requires bytesRead < size
    decreases size - bytesRead, Remaining(data, pos), 1
  {
    DataRound(data, pos, bytesRead, size, cfg, DataStep(data, pos, base, cfg))
  }

  /** A round of the data loop, given what the record at `pos` decodes to.
      A record of size 0 whose seek lands back on itself would be decoded
      again forever; the model stops there with `Diverges`, after the one
      sample it emitted. A seek the file refuses ends the loop after the
      record's sample too. */
  function DataRound(data: seq<Byte>, pos: nat, bytesRead: nat, size: U64, cfg: Config, step: Result<Step>): (run: DataRun)
    requires bytesRead < size
    requires step.Ok? ==> pos < |data| && SeekTarget(step.value) >= pos
    decreases size - bytesRead, Remaining(data, pos), 0
  {
    match step
    case Err(e) => DataRun([], Some(e))
    case Ok(s) =>
      var emitted := Emitted(s.sample);
      var next := SeekTarget(s);
      if next >= SEEK_LIMIT then DataRun(emitted, Some(InvalidSeek))
      else if s.eventSize == 0 && next == pos then DataRun(emitted, Some(Diverges))
      else Then(emitted, DataLoop(data, next, bytesRead + s.eventSize, size, s.base, cfg))
  }

  lemma ThenNothing(run: DataRun)
    ensures Then([], run) == run
  {
    assert [] + run.samples == run.samples;
  }

  /** The body of the data loop up to the seek: the event header, then the
      MMAP2 or SAMPLE decoder, or nothing. */
  method ReadDataRecord(r: Reader, base: Option<U64>, cfg: Config) returns (res: Result<Step>)
    modifies r
    ensures var spec := DataStep(r.data, old(r.pos), base, cfg);
            && (res.Ok? <==> spec.Ok?)
            && (res.Ok? ==> res.value == spec.value && r.pos == spec.value.cursor)
            && (res.Err? ==> res.error == spec.error)
  {
    var header := ReadEventHeader(r);
    if header.Err? { return Err(header.error); }
    var h := header.value;
    if h.eventType == Mmap2 {
      var mmap := EventMmap2.ReadMmap2Event(r, cfg.objectName);
      if mmap.Err? { return Err(mmap.error); }
      var found := mmap.value.objectBaseAddress;
      var symbolicatorBase := base;
      if found.Some? {
        if !cfg.oracle.load(found.value) { return Err(SymbolicatorFailed); }
        symbolicatorBase := found;
      }
      return Ok(Step(h.eventSize, mmap.value.bytesRead, r.pos, None, symbolicatorBase));
    } else if h.eventType == Sample && base.Some? {
      var sample := EventSample.ReadSampleEvent(r, cfg.sampleType, cfg.oracle, base.value);
      if sample.Err? { return Err(sample.error); }
      return Ok(Step(h.eventSize, sample.value.bytesRead, r.pos, sample.value.sample, base));
    }
    return Ok(Step(h.eventSize, 0, r.pos, None, base));
  }

  /** Before the section's bytes are all counted, the loop does a round
      with what the record at `pos` decodes to. */
  lemma DataLoopUnfolds(data: seq<Byte>, pos: nat, bytesRead: nat, size: U64, base: Option<U64>, cfg: Config)
    requires bytesRead < size
    ensures var step := DataStep(data, pos, base, cfg);
            && (step.Ok? ==> pos < |data| && SeekTarget(step.value) >= pos)
            && DataLoop(data, pos, bytesRead, size, base, cfg) == DataRound(data, pos, bytesRead, size, cfg, step)
  {
  }

  /** A round of the data loop whose record decodes and whose seek moves on:
      its sample, then the rest of the loop from where the seek lands. */
  lemma DataRoundContinues(data: seq<Byte>, pos: nat, bytesRead: nat, size: U64, cfg: Config, step: Step, next: nat)
    requires bytesRead < size && pos < |data| && next == SeekTarget(step) >= pos && next < SEEK_LIMIT
    requires step.eventSize != 0 || next != pos
    ensures DataRound(data, pos, bytesRead, size, cfg, Ok(step))
         == Then(Emitted(step.sample), DataLoop(data, next, bytesRead + step.eventSize, size, step.base, cfg))
  {
  }

  lemma ThenStep(whole: DataRun, samples: seq<EventSample.Sample>, rest: DataRun, more: seq<EventSample.Sample>, next: DataRun)
    requires whole == Then(samples, rest) && rest == Then(more, next)
    ensures whole == Then(samples + more, next)
  {
    assert samples + (more + next.samples) == (samples + more) + next.samples;
  }

  /** The body of the loop of `read_data_section`: the record, then the
      seek past it. What the loop does next is the round `DataRound` of
      what the record decoded to. */
  method ReadDataRound(r: Reader, bytesRead: nat, size: U64, base: Option<U64>, cfg: Config)
    returns (step: Result<Step>, seek: Result<()>)
    requires bytesRead < size
    modifies r
    ensures step.Ok? ==> old(r.pos) < |r.data| && SeekTarget(step.value) >= old(r.pos)
    ensures step.Ok? ==> (seek.Ok? <==> SeekTarget(step.value) < SEEK_LIMIT)
    ensures step.Ok? && seek.Ok? ==> r.pos == SeekTarget(step.value)
    ensures step.Ok? && seek.Err? ==> seek.error == InvalidSeek
    ensures DataLoop(r.data, old(r.pos), bytesRead, size, base, cfg) == DataRound(r.data, old(r.pos), bytesRead, size, cfg, step)
  {
    var pos := r.pos;
    step := ReadDataRecord(r, base, cfg);
    DataLoopUnfolds(r.data, pos, bytesRead, size, base, cfg);
    seek := Ok(());
    if step.Ok? {
      seek := r.SeekRelative(step.value.eventSize - 8 - step.value.eventBytes);
    }
  }

  /** The data section: the seek to its offset, then the loop. */
  function DataSection(data: seq<Byte>, header: Header, cfg: Config): DataRun
  {
    if header.dataSection.offset >= SEEK_LIMIT then DataRun([], Some(InvalidSeek))
    else DataLoop(data, header.dataSection.offset, 0, header.dataSection.size, None, cfg)
  }

  /** `read_data_section`: seek to the section and decode records until
      `size` bytes are counted, handing each sample to `process_sample`
      (here: appending it to `samples`). */
  method ReadDataSection(r: Reader, header: Header, cfg: Config) returns (samples: seq<EventSample.Sample>, error: Option<Error>)
    modifies r
    ensures DataRun(samples, error) == DataSection(r.data, header, cfg)
  {
    var size := header.dataSection.size;
    var seek := r.Seek(header.dataSection.offset);
    if seek.Err? { return [], Some(seek.error); }
    var bytesRead: nat := 0;
    var base := None;
    samples := [];
    ghost var whole := DataLoop(r.data, r.pos, bytesRead, size, base, cfg);
    ghost var rest := whole;
    ThenNothing(whole);
    while bytesRead < size
      invariant rest == DataLoop(r.data, r.pos, bytesRead, size, base, cfg)
      invariant whole == Then(samples, rest)
      decreases if bytesRead < size then size - bytesRead else 0, Remaining(r.data, r.pos)
    {
      var pos := r.pos;
      var step, seek := ReadDataRound(r, bytesRead, size, base, cfg);
      if step.Err? {
        assert samples + [] == samples;
        return samples, Some(step.error);
      }
      var emitted := Emitted(step.value.sample);
      if seek.Err? {
        return samples + emitted, Some(seek.error);
      }
      if step.value.eventSize == 0 && r.pos == pos {
        return samples + emitted, Some(Diverges);
      }
      DataRoundContinues(r.data, pos, bytesRead, size, cfg, step.value, r.pos);
      bytesRead := bytesRead + step.value.eventSize;
      base := step.value.base;
      ghost var next := DataLoop(r.data, r.pos, bytesRead, size, base, cfg);
      ThenStep(whole, samples, rest, emitted, next);
      samples := samples + emitted;
      rest := next;
    }
    assert samples + [] == samples;
    return samples, None;
  }

  /** `convert_perf_data_to_wtf` on the bytes of a perf.data file: the
      header, the attribute section, then the data section decoded with the
      sample layout of the first attribute. */
  function ConvertSpec(data: seq<Byte>, objectName: string, oracle: Oracle): DataRun
  {
    match HeaderAt(data, 0)
    case Err(e) => DataRun([], Some(e))
    case Ok(h) =>
      var header := h.value;
      match AttributeSection(data, header)
      case Err(e) => DataRun([], Some(e))
      case Ok(attributes) =>
        if |attributes| == 0 then DataRun([], Some(NoAttributes))
        else DataSection(data, header, Config(attributes[0].sampleType, objectName, oracle))
  }

  /** `convert_perf_data_to_wtf`, with the file already read into `data`
      and the samples collected instead of printed. */
  method Convert(data: seq<Byte>, objectName: string, oracle: Oracle) returns (samples: seq<EventSample.Sample>, error: Option<Error>)
    ensures DataRun(samples, error) == ConvertSpec(data, objectName, oracle)
  {
    var r := new Reader(data);
    var header := ReadHeader(r);
    if header.Err? { return [], Some(header.error); }
    var attributes := ReadAttributeSection(r, header.value);
    if attributes.Err? { return [], Some(attributes.error); }
    if |attributes.value| == 0 { return [], Some(NoAttributes); }
    var cfg := Config(attributes.value[0].sampleType, objectName, oracle);
    samples, error := ReadDataSection(r, header.value, cfg);
  }

  /** A file that does not start with `PERFILE2` yields no sample and a
      version error. */
  lemma NotPerfData(data: seq<Byte>, objectName: string, oracle: Oracle)
    requires 8 <= |data| && data[..8] != PERF_MAGIC
    ensures ConvertSpec(data, objectName, oracle).samples == []
    ensures ConvertSpec(data, objectName, oracle).error in {Some(VersionNotUtf8), Some(WrongVersion)}
  {
    assert data[0..8] == data[..8];
  }

  /** With an empty attribute section there is no sample layout, and the
      data section is never read; only the seek to the empty section can
      fail first. */
  lemma NoAttributesNoSamples(data: seq<Byte>, objectName: string, oracle: Oracle)
    requires HeaderAt(data, 0).Ok? && HeaderAt(data, 0).value.value.attributeSection.size == 0
    ensures ConvertSpec(data, objectName, oracle)
         == DataRun([], Some(if HeaderAt(data, 0).value.value.attributeSection.offset < SEEK_LIMIT
                             then NoAttributes else InvalidSeek))
  {
  }
}
