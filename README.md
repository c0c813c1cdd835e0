# whatthefn: perf.data decoder, timeline range and profile set-up, in Dafny

whatthefn is a GTK profiler for Rust programs. It builds the program with
cargo, records it with `perf record`, and converts the trace. This project
models three parts of it.

- **The perf.data decoder** (`convert_perf_data_to_wtf`). The module `Wire`
  defines a seekable reader over the file's bytes. `PerfData` models, in order:
  - the 80-byte header with its `PERFILE2` check;
  - the attribute section, a sequence of `perf_event_attr` records;
  - the data section, a sequence of length-prefixed records.

  `EventMmap2` models PERF_RECORD_MMAP2. A record that maps the profiled
  binary executable gives the load address a symbolicator is built for.
  `EventSample` models PERF_RECORD_SAMPLE, which carries the thread id, the
  time and the symbolised call chain. `Flags` models `bitflags` and `bit(n)`.
  `Symbols` is the symbolicator, taken as an oracle.
- **`TimelineRange`** (`Timeline`): a span of timestamps on the profile's
  time axis.
- **The profile set-up page** (`ProfileSetup`):
  - the names of the trace and profile files;
  - the `${TMP_FILE}`, `${PROGRAM_ARGUMENTS}` and `${PROGRAM}` placeholders
    of the perf command;
  - the search of cargo's JSON messages for the built executable;
  - the split of a command line into environment assignments and the command
    words.

  `Text` models the string functions this part uses from Rust's standard
  library.

Each method that reads from the file is proved equal to a pure function of
the bytes and the starting position. That function gives the decoded value
and where the cursor ends, or the error. The decoder's loops over the
attribute and data sections are proved against recursive definitions of the
whole loop: `AttributeLoop` and `DataLoop`. Properties are stated as lemmas
on those functions:
- round trips of the header, the integers, the flags and the MMAP2 records;
- how many attributes a section holds, and where each comes from;
- when the symbolicator changes, and which records can emit samples;
- where the seek after each record lands.

Panics (`unreachable!()`, `todo!()`) are modelled as error values. So are
loops that never end.

## Model

| member | source | states |
|---|---|---|
| Wire.DecodeEncodeU16 | src/perf_data_parser/perf_data_parser.rs:137-141 | the u16 read from the 2-byte encoding of v is v |
| Wire.DecodeEncodeU32 | src/perf_data_parser/perf_data_parser.rs:143-147 | the u32 read from the 4-byte encoding of v is v |
| Wire.DecodeEncodeU64 | src/perf_data_parser/perf_data_parser.rs:149-153 | the u64 read from the 8-byte encoding of v is v |
| Wire.EncodeDecodeU16 | src/perf_data_parser/perf_data_parser.rs:137-141 | any 2 bytes are the encoding of the u16 read from them |
| Wire.EncodeDecodeU32 | src/perf_data_parser/perf_data_parser.rs:143-147 | any 4 bytes are the encoding of the u32 read from them |
| Wire.EncodeDecodeU64 | src/perf_data_parser/perf_data_parser.rs:149-153 | any 8 bytes are the encoding of the u64 read from them |
| Wire.Reader.constructor | src/perf_data_parser/perf_data_parser.rs:14 | a reader over the file's bytes starts at position 0 |
| Wire.Reader.ReadU8 | src/perf_data_parser/perf_data_parser.rs:130-135 | succeeds iff a byte is left; returns it and advances 1; on failure UnexpectedEof and the cursor stays |
| Wire.Reader.ReadU16 | src/perf_data_parser/perf_data_parser.rs:137-141 | succeeds iff 2 bytes are left; returns the u16 they hold and advances 2; otherwise UnexpectedEof |
| Wire.Reader.ReadU32 | src/perf_data_parser/perf_data_parser.rs:143-147 | succeeds iff 4 bytes are left; returns the u32 they hold and advances 4; otherwise UnexpectedEof |
| Wire.Reader.ReadU64 | src/perf_data_parser/perf_data_parser.rs:149-153 | succeeds iff 8 bytes are left; returns the u64 they hold and advances 8; otherwise UnexpectedEof |
| Wire.Reader.ReadVersion | src/perf_data_parser/perf_data_parser.rs:155-159 | consumes 8 bytes; returns them when they are valid UTF-8, VersionNotUtf8 when not; UnexpectedEof when fewer than 8 are left |
| Wire.U16At | src/perf_data_parser/perf_data_parser.rs:137-141 | the little-endian u16 of the 2 bytes at p: low byte first |
| Wire.U32At | src/perf_data_parser/perf_data_parser.rs:143-147 | the little-endian u32 of the 4 bytes at p: the u16 at p, plus 2^16 times the u16 at p + 2 |
| Wire.U64At | src/perf_data_parser/perf_data_parser.rs:149-153 | the little-endian u64 of the 8 bytes at p: the u32 at p, plus 2^32 times the u32 at p + 4 |
| Wire.ValidUtf8 | src/perf_data_parser/perf_data_parser.rs:158 | the well-formed UTF-8 byte sequences that `String::from_utf8` accepts, per table 3-7 of the Unicode standard: no overlong forms, no surrogates, nothing above U+10FFFF |
| Wire.Reader.ReadExact | src/perf_data_parser/perf_data_parser.rs:155-158 | succeeds iff n bytes are left; returns those bytes and advances n; otherwise UnexpectedEof and the cursor stays |
| Wire.Reader.Seek | src/perf_data_parser/perf_data_parser.rs:50 | an offset below 2^63 becomes the cursor, even past the end; a larger one is refused as InvalidSeek, the i64 `lseek` takes being negative, and the cursor stays |
| Wire.Reader.SeekRelative | src/perf_data_parser/perf_data_parser.rs:67 | moves the cursor by delta when the target is in 0 .. 2^63 - 1; otherwise InvalidSeek with the cursor unchanged |
| Wire.AsciiIsValidUtf8 | src/perf_data_parser/perf_data_parser.rs:158 | `String::from_utf8` accepts every ASCII byte string |
| Flags.FlagsOfBitSet | src/perf_data_parser/event_sample.rs:139-167 | flag k of `from_bits_truncate(bits)` is set iff bit k of bits is set |
| Flags.BitsOfFlagsOf | src/perf_data_parser/event_sample.rs:139-167 | `from_bits_truncate` then `bits` keeps exactly the low n bits of the mask |
| Flags.FlagsOfBitsOf | src/perf_data_parser/perf_data_parser.rs:59 | `bits` then `from_bits_truncate` gives the flags back unchanged |
| Flags.Pow2Bit | src/perf_data_parser/perf_data_parser.rs:362-364 | `1 << n` has bit k set iff k == n |
| Symbols.Symbolize | src/perf_data_parser/event_sample.rs:115-120 | succeeds iff every address's lookup succeeds; then one name per address, in call-chain order |
| Text.IsSubstringIff | src/perf_data_parser/event_mmap2.rs:33 | `contains` holds iff the needle occurs at some index of the text |
| Text.Split | src/profile_setup_page.rs:343 | at least one piece; the first piece is a prefix of the text; no piece contains the separator |
| Text.JoinSplit | src/profile_setup_page.rs:343 | joining the pieces of `split(sep)` with sep gives the text back |
| Text.SplitOnce | src/profile_setup_page.rs:344 | None iff the char is absent; otherwise before + c + after is the text and before has no c |
| Text.IsSubstring | src/perf_data_parser/event_mmap2.rs:33 | `str::contains`: the needle is a prefix of the text or of one of its suffixes |
| Text.Join | src/profile_setup_page.rs:343 | the pieces with the separator between each two, none before the first or after the last |
| Text.Replace | src/profile_setup_page.rs:245-247 | `str::replace`: left to right, each non-overlapping occurrence of the pattern is replaced, the rest copied |
| Text.ReplaceIsSplitJoin | src/profile_setup_page.rs:245-247 | `replace(from, to)` is splitting at from and joining with to |
| Text.ReplaceAbsent | src/profile_setup_page.rs:245-247 | a text without the pattern is left unchanged by `replace` |
| EventMmap2.ProtectionFromBits | src/perf_data_parser/event_mmap2.rs:20 | only the three protection flags survive, and PROT_EXEC is set iff it is set in the raw u32 |
| EventMmap2.Latin1 | src/perf_data_parser/event_mmap2.rs:29 | one char per byte, whose code point is the byte's value (`byte as char`) |
| EventMmap2.Matches | src/perf_data_parser/event_mmap2.rs:33-35 | the mapping matches iff its file name contains the binary's name and PROT_EXEC is set |
| EventMmap2.NulFrom | src/perf_data_parser/event_mmap2.rs:22-31 | finds the first NUL at or after k: a NUL at that index, none before it; None iff no NUL follows |
| EventMmap2.Mmap2At | src/perf_data_parser/event_mmap2.rs:6-46 | succeeds iff the 64 fixed bytes and a NUL-terminated name are present; count is 65 + name length; cursor ends after the NUL; otherwise UnexpectedEof |
| EventMmap2.ReadFixedFields | src/perf_data_parser/event_mmap2.rs:11-21 | succeeds iff 64 bytes are left; yields the eleven fields in file order and advances 64 |
| EventMmap2.ReadFileName | src/perf_data_parser/event_mmap2.rs:22-31 | succeeds iff a NUL follows; yields the bytes before it as chars; cursor after the NUL |
| EventMmap2.ReadMmap2Event | src/perf_data_parser/event_mmap2.rs:6-46 | returns exactly what Mmap2At gives: count, base address and final cursor, or its error |
| EventMmap2.FixedFieldsRoundTrip | src/perf_data_parser/event_mmap2.rs:11-21 | reading the fixed fields back from their encoding gives the same fields |
| EventMmap2.Mmap2RoundTrip | src/perf_data_parser/event_mmap2.rs:6-46 | decoding an encoded record (NUL-free name) consumes exactly the record; reports the address iff the name contains the binary's name and PROT_EXEC is set |
| EventMmap2.Mmap2AtFound | src/perf_data_parser/event_mmap2.rs:22-35 | when the name ends at z: the count is z + 1 - p; the address is reported iff the match rule holds |
| EventMmap2.NameRoundTrip | src/perf_data_parser/event_mmap2.rs:22-31 | a NUL-free name followed by a NUL is found whole by the name scan |
| EventSample.SampleTypeFromBitsFlags | src/perf_data_parser/event_sample.rs:139-167 | each of the 25 SampleType flags is set iff its bit(k) is set |
| EventSample.SampleTypeFromBits | src/perf_data_parser/event_sample.rs:139-167 | `from_bits_truncate` into the 25 flags, flag k from bit(k) |
| EventSample.FixedBytes | src/perf_data_parser/event_sample.rs:19-58 | the bytes of the flagged fixed fields, 8 per field, the leading ones included |
| EventSample.LeadingBytes | src/perf_data_parser/event_sample.rs:19-36 | the thread id and the time lie inside the bytes of the leading fields |
| EventSample.U64sAt | src/perf_data_parser/event_sample.rs:65-68 | n values; the i-th is the u64 at q + 8i |
| EventSample.CallchainAt | src/perf_data_parser/event_sample.rs:62-71 | succeeds iff nr and nr addresses fit; yields nr values; cursor at q + 8(nr+1) |
| EventSample.RawPadding | src/perf_data_parser/event_sample.rs:74 | a multiple of 8 below 2^32; rounds size up to a multiple of 8 up to 0xFFFF_FFF8; 0 above, where the i32 sum wraps |
| EventSample.RawAt | src/perf_data_parser/event_sample.rs:72-78 | succeeds iff the size and the padded payload fit; cursor ends after them |
| EventSample.OptionalCallchainAt | src/perf_data_parser/event_sample.rs:62-71 | a chain iff CALLCHAIN is set; cursor unmoved when it is not |
| EventSample.SampleAt | src/perf_data_parser/event_sample.rs:7-130 | Ok only if the fixed fields fit and READ is clear; the count never exceeds the bytes consumed; the READ todo!() is hit iff the fixed fields fit and READ is set |
| EventSample.SampleTailAt | src/perf_data_parser/event_sample.rs:62-129 | the count is the fixed bytes + the call chain; cursor after call chain and RAW; a sample is emitted iff tid, time and call chain are all present; errors are EOF or a failed lookup |
| EventSample.SkipU64If | src/perf_data_parser/event_sample.rs:19-26 | reads and counts 8 bytes iff the flag is set |
| EventSample.SkipCpuIf | src/perf_data_parser/event_sample.rs:50-54 | reads cpu and reserved and counts 8 iff CPU is set |
| EventSample.ReadTidIf | src/perf_data_parser/event_sample.rs:27-31 | iff TID is set: reads 8 bytes, keeps the second u32 |
| EventSample.ReadTimeIf | src/perf_data_parser/event_sample.rs:32-36 | iff TIME is set: reads and keeps a u64 |
| EventSample.ReadLeadingSampleFields | src/perf_data_parser/event_sample.rs:19-36 | reads IDENTIFIER, IP, TID and TIME as flagged; keeps tid and time from their offsets |
| EventSample.ReadTidAndTime | src/perf_data_parser/event_sample.rs:27-36 | the TID and TIME blocks: the kept values at their offsets, cursor advanced by the present blocks |
| EventSample.SkipTrailingSampleFields | src/perf_data_parser/event_sample.rs:37-58 | reads ADDR, ID, STREAM_ID, CPU and PERIOD as flagged; counts 8 for each present |
| EventSample.ReadFixedSampleFields | src/perf_data_parser/event_sample.rs:19-58 | succeeds iff all flagged fixed fields fit; count equals the bytes consumed |
| EventSample.ReadCallchain | src/perf_data_parser/event_sample.rs:62-71 | returns exactly CallchainAt's addresses and end position, or its error |
| EventSample.SkipRaw | src/perf_data_parser/event_sample.rs:72-78 | consumes the size and the padded payload byte by byte, as RawAt gives |
| EventSample.ReadSampleEvent | src/perf_data_parser/event_sample.rs:7-130 | returns exactly what SampleAt gives: count, emitted sample and final cursor, or its error |
| EventSample.ReadSampleTail | src/perf_data_parser/event_sample.rs:62-129 | returns exactly what SampleTailAt gives |
| EventSample.TailEmitted | src/perf_data_parser/event_sample.rs:115-127 | an emitted sample carries the read tid and time and one looked-up name per call-chain address, in order |
| EventSample.TailRawUncounted | src/perf_data_parser/event_sample.rs:72-78 | the cursor exceeds the count by exactly the RAW block's bytes, at least 4 with RAW set, 0 without |
| EventSample.RawUncounted | src/perf_data_parser/event_sample.rs:72-78 | with RAW set, the cursor ends at least 4 bytes past the returned count |
| EventSample.RawlessCounted | src/perf_data_parser/event_sample.rs:19-78 | with RAW clear, the cursor ends exactly at the returned count |
| EventSample.SampleAtTail | src/perf_data_parser/event_sample.rs:59-71 | past fitting fixed fields with READ clear, the decoder is the tail decoder |
| PerfData.MagicIsUtf8 | src/perf_data_parser/perf_data_parser.rs:172-173 | "PERFILE2" passes the UTF-8 check of read_version |
| PerfData.HeaderAt | src/perf_data_parser/perf_data_parser.rs:171-192 | Ok iff 80 bytes fit and the first 8 are "PERFILE2"; with 8 bytes present, a version error iff the magic differs; cursor ends at +80 |
| PerfData.HeaderRoundTrip | src/perf_data_parser/perf_data_parser.rs:171-192 | decoding an encoded header gives it back, whatever the dropped fields hold |
| PerfData.ReadSectionInfo | src/perf_data_parser/perf_data_parser.rs:161-165 | succeeds iff 16 bytes are left; offset then size |
| PerfData.ReadHeader | src/perf_data_parser/perf_data_parser.rs:171-192 | returns exactly what HeaderAt gives |
| PerfData.Code | src/perf_data_parser/perf_data_parser.rs:270-311 | every record type's code is in 1..21 or 64..81 |
| PerfData.EventTypeFrom | src/perf_data_parser/perf_data_parser.rs:313-360 | Ok iff the code is in 1..21 or 64..81; otherwise the unreachable!() arm, as UnknownEventType(code) |
| PerfData.CodeRoundTrip | src/perf_data_parser/perf_data_parser.rs:313-360 | `from` maps each type's code back to that type |
| PerfData.EventTypeFromCode | src/perf_data_parser/perf_data_parser.rs:313-360 | every type `from` yields has the code it came from |
| PerfData.KernelTypeCode | src/perf_data_parser/perf_data_parser.rs:316-337 | codes 1..21 come back from their type |
| PerfData.UserTypeCode | src/perf_data_parser/perf_data_parser.rs:339-356 | codes 64..81 come back from their type |
| PerfData.EventHeaderAt | src/perf_data_parser/perf_data_parser.rs:194-202 | Ok iff 8 bytes fit and the code is known; the type has that code; the size is the u16 at +6; an unknown code stops before misc is read |
| PerfData.ReadEventHeader | src/perf_data_parser/perf_data_parser.rs:194-202 | returns exactly what EventHeaderAt gives |
| PerfData.BitIsOneFlag | src/perf_data_parser/perf_data_parser.rs:362-364 | bit(n) sets bit k iff k == n, so each flag is exactly one bit |
| PerfData.Bit | src/perf_data_parser/perf_data_parser.rs:362-364 | `bit(n)` is the u64 with only bit n set, `1 << n` |
| PerfData.AttributeAt | src/perf_data_parser/perf_data_parser.rs:55-59 | the attribute read at q: the frequency from q + 16, the sample type from q + 24 via `from_bits_truncate` |
| PerfData.ReadAttributeFields | src/perf_data_parser/perf_data_parser.rs:55-59 | succeeds iff 32 bytes are left; frequency from +16, sample type from +24 via from_bits_truncate |
| PerfData.AsI64 | src/perf_data_parser/perf_data_parser.rs:67 | `as i64` lands in the i64 range and agrees with the u64 modulo 2^64 |
| PerfData.AttributeLoop | src/perf_data_parser/perf_data_parser.rs:54-69 | the loop ends only in EOF, a seek outside 0 .. 2^63 - 1, or divergence (attribute size 0) |
| PerfData.AttributeLoopContinues | src/perf_data_parser/perf_data_parser.rs:54-69 | a round that reads and seeks yields its attribute in front of the rest of the loop |
| PerfData.ReadAttributeRound | src/perf_data_parser/perf_data_parser.rs:55-68 | an error of the round is the error of the whole loop; success puts the attribute in front of the loop from the new cursor |
| PerfData.AttributeSection | src/perf_data_parser/perf_data_parser.rs:50-69 | the seek to the section's offset, refused at 2^63 and above, then AttributeLoop from there with 0 bytes counted |
| PerfData.ReadAttributeSection | src/perf_data_parser/perf_data_parser.rs:49-72 | returns exactly AttributeSection: the seek's error, or the loop from the section's offset |
| PerfData.AttributeLoopStep | src/perf_data_parser/perf_data_parser.rs:54-69 | a successful loop reads 32 bytes at the cursor and continues attribute_size bytes further |
| PerfData.AttributeCount | src/perf_data_parser/perf_data_parser.rs:54-69 | a successful section of size bytes holds ceil(size / attribute_size) attributes |
| PerfData.AttributesInOrder | src/perf_data_parser/perf_data_parser.rs:54-69 | the i-th attribute is the one read at offset + i * attribute_size |
| PerfData.DataStep | src/perf_data_parser/perf_data_parser.rs:89-120 | a decoded record had a whole header, and the cursor is past the header and every counted byte |
| PerfData.SymbolicatorFromMmap2 | src/perf_data_parser/perf_data_parser.rs:94-111 | the symbolicator changes only at MMAP2 records, only to a loadable base; a matching record's address replaces the previous one; build failures come only from MMAP2 |
| PerfData.SamplesNeedSymbolicator | src/perf_data_parser/perf_data_parser.rs:112-119 | samples come only from SAMPLE records with a symbolicator; other records are skipped, nothing counted |
| PerfData.SeekPastRecord | src/perf_data_parser/perf_data_parser.rs:122 | the seek never lands before the record's end as its size gives it; it lands exactly there unless the record is a decoded SAMPLE with RAW in the layout |
| PerfData.OtherRecordSeek | src/perf_data_parser/perf_data_parser.rs:94-123 | after a record that is not a decoded SAMPLE, the seek lands exactly at the record's end |
| PerfData.RawlessSampleSeek | src/perf_data_parser/perf_data_parser.rs:112-123 | with RAW clear, the seek after a decoded SAMPLE record lands exactly at the record's end |
| PerfData.SampleStep | src/perf_data_parser/perf_data_parser.rs:112-118 | a decoded SAMPLE record's cursor and count are those of the sample decoder on the payload |
| PerfData.RawSkipOvershoots | src/perf_data_parser/perf_data_parser.rs:112-123 | with RAW set, the seek after a SAMPLE record lands at least 4 bytes past the record's end |
| PerfData.DataLoop | src/perf_data_parser/perf_data_parser.rs:88-124 | the data loop: no samples once size bytes are counted, otherwise one round on the record at the cursor |
| PerfData.RecordRound | src/perf_data_parser/perf_data_parser.rs:88-124 | one round of the data loop on the record DataStep decodes at the cursor |
| PerfData.DataRound | src/perf_data_parser/perf_data_parser.rs:88-124 | a decoding error ends the loop; otherwise the record's sample, then the loop from the seek target with its size counted; a refused seek or a size-0 record seeking back onto itself ends it after the sample |
| PerfData.DataLoopUnfolds | src/perf_data_parser/perf_data_parser.rs:88-124 | before the section is counted, the loop is one round on the decoded record, and the seek does not go backwards |
| PerfData.DataRoundContinues | src/perf_data_parser/perf_data_parser.rs:88-124 | a round that moves on emits its sample, then the loop continues from the seek target with the size added |
| PerfData.ReadDataRecord | src/perf_data_parser/perf_data_parser.rs:89-120 | returns exactly what DataStep gives |
| PerfData.ReadDataRound | src/perf_data_parser/perf_data_parser.rs:89-123 | the seek succeeds iff its target is below 2^63, and the cursor lands there; the rest of the loop is DataRound of the record read |
| PerfData.DataSection | src/perf_data_parser/perf_data_parser.rs:83-124 | the seek to the section's offset, refused at 2^63 and above, then DataLoop from there with 0 bytes counted |
| PerfData.ReadDataSection | src/perf_data_parser/perf_data_parser.rs:76-127 | the samples handed out, and the error that stopped it, are exactly DataSection |
| PerfData.ConvertSpec | src/perf_data_parser/perf_data_parser.rs:10-30 | the header, then the attribute section, then, with at least one attribute, the data section in the first attribute's layout |
| PerfData.Convert | src/perf_data_parser/perf_data_parser.rs:10-30 | the samples and error are exactly ConvertSpec: header, attributes, then the data section with the first attribute's layout |
| PerfData.NotPerfData | src/perf_data_parser/perf_data_parser.rs:16 | a file not starting with "PERFILE2" yields no sample and a version error |
| PerfData.NoAttributesNoSamples | src/perf_data_parser/perf_data_parser.rs:20-23 | an empty attribute section yields no sample and the "No attributes found" error, unless the seek to it is refused |
| Timeline.New | src/timeline_range.rs:10-12 | the range holds exactly the start and end it was given |
| Timeline.Default | src/timeline_range.rs:23-27 | both ends are 0 |
| Timeline.Duration | src/timeline_range.rs:14-16 | start + duration == end |
| Timeline.Contains | src/timeline_range.rs:18-20 | a timestamp is in the range iff it lies between start and end, both included |
| Timeline.ContainsWithinDuration | src/timeline_range.rs:14-20 | a timestamp is contained iff it is at or after start and at most duration past it |
| Timeline.Endpoints | src/timeline_range.rs:18-20 | a non-reversed range contains both ends; a reversed one contains nothing |
| Timeline.DefaultRange | src/timeline_range.rs:23-37 | the default range contains only 0 and lasts 0 |
| Timeline.NewRoundTrip | src/timeline_range.rs:9-16 | building a range from its own ends gives the same range |
| ProfileSetup.PerfFileName | src/profile_setup_page.rs:241 | the trace file name is 11 characters longer than name and prefix together |
| ProfileSetup.ProfileFileName | src/profile_setup_page.rs:242 | the profile file name is 11 characters longer than name and prefix together |
| ProfileSetup.FileNamesShareStem | src/profile_setup_page.rs:240-242 | both names start with "<name>:<prefix>.perf."; they end in "data" and "json" and differ |
| ProfileSetup.PerfCommand | src/profile_setup_page.rs:245-247 | each `${TMP_FILE}` becomes the trace file, then each `${PROGRAM_ARGUMENTS}` the arguments |
| ProfileSetup.PerfCommandWithoutPlaceholders | src/profile_setup_page.rs:245-247 | a command without placeholders runs as typed |
| ProfileSetup.StopIndex | src/profile_setup_page.rs:295-305 | every earlier message parsed and has no string executable; the message there does not |
| ProfileSetup.SubstituteProgram | src/profile_setup_page.rs:294-307 | at the first message with a string executable, `${PROGRAM}` is replaced by that path; an unparsable message first is an error; no executable is an error |
| ProfileSetup.FlagCount | src/profile_setup_page.rs:342-350 | every leading token up to k holds '=', the one at k does not |
| ProfileSetup.ParseTokens | src/profile_setup_page.rs:341-351 | one assignment per leading token with '=', split at its first '='; the command is every token from the first without '=' |
| ProfileSetup.ParseCommandText | src/profile_setup_page.rs:341-351 | the same, on the tokens of splitting the text at single spaces |
| ProfileSetup.TokensReassemble | src/profile_setup_page.rs:341-351 | the assignments, as tokens, and the command words are the space-separated tokens; joined with spaces they are the text |

## Left out

- File access. `File::open` and the `BufReader` are replaced by a reader over the file's bytes, given as a sequence. The model has two I/O errors: end of file, and a seek the kernel refuses because its target is not in 0 .. 2^63 - 1 (`InvalidSeek`). Failures of the disk and file system limits below 2^63 bytes are not modelled.
- Byte order. `from_ne_bytes` reads in the host's order; the model fixes it to little-endian, the order of the x86-64 and AArch64 hosts that write perf.data.
- `Path::file_name` of the profiled binary: its text is a parameter (`Config.objectName`).
- The symbolicator (src/perf_data_parser/symbolicator.rs). It reads the binary, parses its DWARF data and looks up frames. It is an oracle: whether it can be built for a base address, and what each lookup returns. Its load-bias arithmetic (`base + .text address - 0x7D1E40`) sits inside the oracle.
- `process_sample`. The closure prints each stack trace with `dbg!`. The model collects the samples in order instead, and keeps those handed out before an error.
- `ExtraHeadersPresent`. The feature bitmap's 8 bytes are consumed, but its value is dropped, as nothing in the decoder uses it. `read_extra_headers` is an empty stub.
- PerfData.DataLoop: does not model the u64 overflow of `bytes_read`. Counts are unbounded naturals. An overflow needs more than 2^64 bytes of records.
- PerfData.AttributeLoop: a section whose attribute size is 0 seeks back to the same record forever. The model stops there with `Diverges`. The model computes `attribute_size as i64 - 32` without wrapping. For sizes 2^63 to 2^63 + 31 it overflows i64: a debug build panics, and a release build wraps to a delta of at least 2^63 - 32, which the seek refuses. The model refuses the seek too, unless the record starts within 31 bytes of 2^63. `AttributesInOrder` is stated for sizes below 2^63.
- PerfData.AttributeLoop: does not model the u64 wrap of `bytes_read += attribute_size` (line 68). Counts are unbounded naturals. After a wrap the model's count is at least 2^64, so the model ends the loop where the real one goes on with the wrapped count. A wrap needs an attribute size of 2^63 or more, which `as i64` turns into a backward seek. For smaller sizes every seek moves the cursor forward by exactly the size, and is refused at 2^63 before the add. That keeps the count, the distance from the section's offset, below 2^63.
- PerfData.DataRound: a record of size 0 whose seek lands back on itself is decoded forever. The model stops there with `Diverges`, after that record's sample.
- PerfData.EventTypeFrom: an unknown type code panics (`unreachable!()`). The model returns `UnknownEventType(code)`. Likewise the `todo!()` for PERF_SAMPLE_READ becomes `ReadFormatUnimplemented`.
- EventSample.RawPadding: follows the release-build wrapping of `size as i32 + 7`. A debug build panics instead for sizes 0x7FFF_FFF9 to 0x7FFF_FFFF.
- Timeline.Duration: requires start <= end. The u64 subtraction `end - start` has no value otherwise: it panics in a debug build and wraps in a release build.
- `TimelineRange` as a GObject: properties, `Cell`s and the class registration are not modelled. A range is a value whose ends are set once.
- The rest of the set-up page:
  - the GTK widgets, the date prefix from the clock;
  - running cargo, perf and the converter as subprocesses;
  - the async task;
  - parsing the JSON.

  cargo's messages are given as already-parsed values (`CompilerMessage`). The subprocess launcher receives the assignments and words that `ParseCommandText` returns.
- The data section loop does not check that the seek after a record moves forward. `SeekPastRecord` proves it never moves before the record's end, as the record's size gives it. The model follows the code.
- The RAW block of a sample is read but never added to `bytes_read` (src/perf_data_parser/event_sample.rs:72-78). The seek after such a record therefore lands past the record's end. `RawSkipOvershoots` states this as the code behaves. The model keeps the code's behaviour rather than a corrected count.
