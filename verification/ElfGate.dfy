/** The gate an image must pass before it is flashed (xtask/src/validate.rs): a parser for ELF32 images, in the
    format of chapters 4 and 5 of the System V ABI, that collects every reason not to
    flash one. */
module ElfGate {
  import opened Ints
  import opened Utf8

  type Image = seq<u8>

  const TEENSY40_FLASH_CAPACITY := 1984 * 1024
  const FLEXSPI_BASE: u32 := 0x6000_0000
  const FLEXSPI_END: u32 := 0x6800_0000
  const ELF32_HEADER_LEN := 52
  const ELF32_PHDR_LEN := 32
  const ELF32_SHDR_LEN := 40
  const PT_LOAD := 1
  const ET_EXEC := 2
  const EM_ARM := 0x28
  const EF_ARM_EABI_VER5 := 0x05
  const ELF_MAGIC: seq<u8> := [0x7F, 0x45, 0x4C, 0x46]
  const FCB_TAG: seq<u8> := [0x46, 0x43, 0x46, 0x42]

  /** ".vector_table" */
  const VECTOR_TABLE: seq<u8> := [0x2E, 0x76, 0x65, 0x63, 0x74, 0x6F, 0x72, 0x5F, 0x74, 0x61, 0x62, 0x6C, 0x65]

  datatype Rejection =
    | EmptyImage | TooSmall | BadMagic
    | NotClass32 | NotLittleEndian | BadIdentVersion
    | BadVersion | NotExecutable | WrongMachine | BadHeaderSize
    | UnusableProgramHeaders
    | HeaderOffsetOverflows(index: nat) | HeaderUnaddressable(index: nat) | HeaderPastEnd(index: nat)
    | FcbSegmentTooSmall | FcbOffsetOverflows | FcbPastEnd | FcbBadTag
    | NoProgramHeaders | ImageTooLarge | FcbMissing
    | ImplausibleStack | ImplausibleReset
  {
    /** Whether the message names the FlexSPI Configuration Block. */
    predicate MentionsFcb()
    {
      FcbSegmentTooSmall? || FcbOffsetOverflows? || FcbPastEnd? || FcbBadTag? || NoProgramHeaders? || FcbMissing?
    }
  }

  /** Why the vector table could not be read. */
  datatype SkipReason =
    | NoSections | OddSectionSize | StringIndexOutOfRange | StringHeaderUnreadable | StringTableUnreadable
    | NoSuchSection | VectorsTooSmall | VectorsUnreadable

  datatype Warning = OldEabi | SoftFloat | VectorsSkipped(reason: SkipReason)

  // ----- Reading the file -----

  function ReadU16(bytes: Image, offset: nat): u16
    requires offset + 2 <= |bytes|
  {
    var low: int, high: int := bytes[offset], bytes[offset + 1];
    low + 0x100 * high
  }

  function ReadU32(bytes: Image, offset: nat): u32
    requires offset + 4 <= |bytes|
  {
    var low: int, high: int := ReadU16(bytes, offset), ReadU16(bytes, offset + 2);
    low + 0x1_0000 * high
  }

  datatype Ident = Ident(class_: u8, data: u8, version: u8) {
    predicate IsLe32() { class_ == 1 && data == 1 }
  }

  datatype Header = Header(
    kind: u16, machine: u16, version: u32, entry: u32, phoff: u32, shoff: u32, flags: u32,
    ehsize: u16, phentsize: u16, phnum: u16, shentsize: u16, shnum: u16, shstrndx: u16)

  predicate Parsable(bytes: Image)
  {
    |bytes| >= ELF32_HEADER_LEN && bytes[..4] == ELF_MAGIC
  }

  function ReadIdent(bytes: Image): Ident
    requires |bytes| >= ELF32_HEADER_LEN
  {
    Ident(bytes[4], bytes[5], bytes[6])
  }

  function ReadHeader(bytes: Image): Header
    requires |bytes| >= ELF32_HEADER_LEN
  {
    Header(ReadU16(bytes, 16), ReadU16(bytes, 18), ReadU32(bytes, 20), ReadU32(bytes, 24), ReadU32(bytes, 28),
           ReadU32(bytes, 32), ReadU32(bytes, 36), ReadU16(bytes, 40), ReadU16(bytes, 42), ReadU16(bytes, 44),
           ReadU16(bytes, 46), ReadU16(bytes, 48), ReadU16(bytes, 50))
  }

  /** Where the first zero is, or the end. */
  function ZeroFrom(s: seq<u8>, i: nat): (end: nat)
    requires i <= |s|
    ensures i <= end <= |s| && (end < |s| ==> s[end] == 0)
    ensures forall j :: i <= j < end ==> s[j] != 0
    decreases |s| - i
  {
    if i == |s| || s[i] == 0 then i else ZeroFrom(s, i + 1)
  }

  /** The text at an offset up to the first zero, or to the end when there is none; nothing
      when the offset is outside or those bytes are not UTF-8. */
  function ReadCString(haystack: seq<u8>, offset: nat): (r: Option<seq<u8>>)
    ensures offset >= |haystack| ==> r == None
    ensures offset < |haystack| ==> (r == None <==> !IsUtf8(haystack[offset..ZeroFrom(haystack, offset)]))
    ensures r.Some? ==> offset + |r.value| <= |haystack| && r.value == haystack[offset..offset + |r.value|] && 0 !in r.value
    ensures r.Some? && offset + |r.value| < |haystack| ==> haystack[offset + |r.value|] == 0
  {
    if offset >= |haystack| then None
    else
      var text := haystack[offset..ZeroFrom(haystack, offset)];
      if IsUtf8(text) then Some(text) else None
  }

  /** The text's bytes, ended by a zero or by the end. */
  predicate StandsAt(haystack: seq<u8>, offset: nat, text: seq<u8>)
  {
    var end := offset + |text|;
    end <= |haystack| && haystack[offset..end] == text && (end < |haystack| ==> haystack[end] == 0)
  }

  /** An ASCII name is read exactly where it stands. */
  lemma NameIsReadIff(haystack: seq<u8>, offset: nat, name: seq<u8>)
    requires name != [] && forall i :: 0 <= i < |name| ==> 1 <= name[i] <= 0x7F
    ensures ReadCString(haystack, offset) == Some(name) <==> StandsAt(haystack, offset, name)
  {
    AsciiIsUtf8(name);
    var end := offset + |name|;
    if StandsAt(haystack, offset, name) {
      forall j | offset <= j < end ensures haystack[j] != 0 {
        assert haystack[j] == haystack[offset..end][j - offset];
      }
      assert ZeroFrom(haystack, offset) == end;
    }
  }

  /** The address windows of the i.MX RT1062: ITCM, DTCM, OCRAM and FlexSPI. */
  predicate AddressPlausible(address: u32)
  {
    || address < 0x0008_0000
    || 0x2000_0000 <= address < 0x2008_0000
    || 0x2020_0000 <= address < 0x2028_0000
    || FLEXSPI_BASE <= address < FLEXSPI_END
  }

  // ----- Program headers -----

  datatype Segment = Segment(kind: u32, offset: u32, paddr: u32, filesz: u32)

  function SegmentEnd(h: Header, i: nat): nat { h.phoff + i * ELF32_PHDR_LEN + ELF32_PHDR_LEN }

  function SegmentAt(bytes: Image, h: Header, i: nat): Segment
    requires SegmentEnd(h, i) <= |bytes|
  {
    var at := h.phoff + i * ELF32_PHDR_LEN;
    Segment(ReadU32(bytes, at), ReadU32(bytes, at + 4), ReadU32(bytes, at + 12), ReadU32(bytes, at + 16))
  }

  /** Program header `i` is inside the file and describes a loadable segment. */
  predicate IsLoad(bytes: Image, h: Header, i: nat)
  {
    SegmentEnd(h, i) <= |bytes| && SegmentAt(bytes, h, i).kind == PT_LOAD
  }

  /** ... that is mapped where the boot ROM looks for its configuration block. */
  predicate AtBase(bytes: Image, h: Header, i: nat)
  {
    IsLoad(bytes, h, i) && SegmentAt(bytes, h, i).paddr == FLEXSPI_BASE
  }

  predicate HoldsFcb(bytes: Image, s: Segment)
  {
    s.filesz >= 4 && s.offset + 4 <= |bytes| && bytes[s.offset..s.offset + 4] == FCB_TAG
  }

  /** File bytes of the loadable segments among the first `n`. */
  function LoadSum(bytes: Image, h: Header, n: nat): (sum: nat)
    ensures sum <= n * U32_MAX
  {
    if n == 0 then 0 else LoadSum(bytes, h, n - 1) + if IsLoad(bytes, h, n - 1) then SegmentAt(bytes, h, n - 1).filesz else 0
  }

  // ----- Sections -----

  datatype Lookup = Found(sp: u32, reset: u32) | Missing(reason: SkipReason)

  function SectionStart(h: Header, i: nat): nat { h.shoff + i * ELF32_SHDR_LEN }

  /** Section header `i` is inside the file and its name is `.vector_table`. */
  predicate IsVectorTable(bytes: Image, h: Header, names: seq<u8>, i: nat)
  {
    SectionStart(h, i) + ELF32_SHDR_LEN <= |bytes| && StandsAt(names, ReadU32(bytes, SectionStart(h, i)), VECTOR_TABLE)
  }

  /** The section name string table, when its header and extent can be trusted. */
  function SectionNames(bytes: Image, h: Header): (r: (Option<seq<u8>>, SkipReason))
  {
    if h.shnum == 0 || h.shoff == 0 then (None, NoSections)
    else if h.shentsize != ELF32_SHDR_LEN then (None, OddSectionSize)
    else if h.shstrndx >= h.shnum then (None, StringIndexOutOfRange)
    else
      var at := SectionStart(h, h.shstrndx);
      if at + ELF32_SHDR_LEN > |bytes| then (None, StringHeaderUnreadable)
      else
        var offset, size := ReadU32(bytes, at + 16), ReadU32(bytes, at + 20);
        if offset + size > |bytes| then (None, StringTableUnreadable)
        else (Some(bytes[offset..offset + size]), NoSuchSection)
  }

  /** The two vectors of the section whose header is at `at`. */
  function VectorsAt(bytes: Image, at: nat): Lookup
    requires at + ELF32_SHDR_LEN <= |bytes|
  {
    var offset, size := ReadU32(bytes, at + 16), ReadU32(bytes, at + 20);
    if size < 8 then Missing(VectorsTooSmall)
    else if offset + 8 > |bytes| then Missing(VectorsUnreadable)
    else Found(ReadU32(bytes, offset), ReadU32(bytes, offset + 4))
  }

  /** The lowest-indexed section named `.vector_table` whose header and name can be read,
      looking from section `from` on. */
  function FirstVectorTable(bytes: Image, h: Header, names: seq<u8>, from: nat): (r: Option<nat>)
    requires from <= h.shnum
    ensures r.Some? ==> from <= r.value < h.shnum && IsVectorTable(bytes, h, names, r.value)
    ensures forall i :: from <= i < (if r.Some? then r.value else h.shnum) ==> !IsVectorTable(bytes, h, names, i)
    decreases h.shnum - from
  {
    if from == h.shnum then None
    else if IsVectorTable(bytes, h, names, from) then Some(from)
    else FirstVectorTable(bytes, h, names, from + 1)
  }

  /** What the vector table lookup must answer: the vectors of that section, or the reason
      there are none. */
  function LookupOf(bytes: Image, h: Header): Lookup
  {
    var (table, reason) := SectionNames(bytes, h);
    match table
    case None => Missing(reason)
    case Some(names) =>
      match FirstVectorTable(bytes, h, names, 0)
      case None => Missing(NoSuchSection)
      case Some(i) => VectorsAt(bytes, SectionStart(h, i))
  }

  predicate VectorsPlausible(r: Lookup)
  {
    r.Found? ==> AddressPlausible(r.sp) && AddressPlausible(ClearThumbBit(r.reset))
  }

  /** `reset & !1` */
  function ClearThumbBit(address: u32): u32 { address - address % 2 }

  // ----- What an image must be to be flashed -----

  ghost predicate HeaderSound(bytes: Image)
  {
    && Parsable(bytes)
    && ReadIdent(bytes) == Ident(1, 1, 1)
    && var h := ReadHeader(bytes);
       && h.version == 1 && h.kind == ET_EXEC && h.machine == EM_ARM && h.ehsize == ELF32_HEADER_LEN
       && h.phentsize == ELF32_PHDR_LEN && h.phnum > 0
  }

  /** A program header that is in the file, and if it maps the configuration block's address,
      maps a genuine one there. */
  ghost predicate SegmentSound(bytes: Image, h: Header, i: nat)
  {
    SegmentEnd(h, i) <= |bytes| && (AtBase(bytes, h, i) ==> HoldsFcb(bytes, SegmentAt(bytes, h, i)))
  }

  ghost predicate AllSegmentsSound(bytes: Image, h: Header, n: nat)
  {
    forall i: nat :: i < n ==> SegmentSound(bytes, h, i)
  }

  /** Some segment maps the configuration block's address. */
  ghost predicate MapsBase(bytes: Image, h: Header)
  {
    exists i: nat :: i < h.phnum && AtBase(bytes, h, i)
  }

  ghost predicate SegmentsSound(bytes: Image, h: Header)
  {
    && AllSegmentsSound(bytes, h, h.phnum)
    && LoadSum(bytes, h, h.phnum) <= TEENSY40_FLASH_CAPACITY
    && ((exists i: nat :: i < h.phnum && IsLoad(bytes, h, i)) ==> MapsBase(bytes, h))
  }

  /** The gate's verdict, said without the gate. */
  ghost predicate Flashable(bytes: Image)
  {
    && HeaderSound(bytes)
    && SegmentsSound(bytes, ReadHeader(bytes))
    && VectorsPlausible(LookupOf(bytes, ReadHeader(bytes)))
  }

  // ----- The gate -----

  /** What is collected while an image is examined. */
  class Report {
    var rejections: seq<Rejection>
    var warnings: seq<Warning>

    constructor ()
      ensures rejections == [] && warnings == []
    {
      rejections, warnings := [], [];
    }

    method Reject(r: Rejection)
      modifies `rejections
      ensures rejections == old(rejections) + [r]
    {
      rejections := rejections + [r];
    }

    method Warn(w: Warning)
      modifies `warnings
      ensures warnings == old(warnings) + [w]
    {
      warnings := warnings + [w];
    }
  }

  function If(condition: bool, r: Rejection): seq<Rejection> { if condition then [r] else [] }

  function FramingRejections(bytes: Image): seq<Rejection>
  {
    if bytes == [] then [EmptyImage]
    else If(|bytes| < ELF32_HEADER_LEN, TooSmall) + If(|bytes| >= 4 && bytes[..4] != ELF_MAGIC, BadMagic)
  }

  method CheckFraming(bytes: Image, report: Report) returns (parsable: bool)
    modifies report`rejections
    ensures parsable == Parsable(bytes) && report.warnings == old(report.warnings)
    ensures report.rejections == old(report.rejections) + FramingRejections(bytes)
  {
    if bytes == [] {
      report.Reject(EmptyImage);
      return false;
    }
    if |bytes| < ELF32_HEADER_LEN {
      report.Reject(TooSmall);
      if |bytes| < 4 {
        return false;
      }
    }
    if |bytes| >= 4 && bytes[..4] != ELF_MAGIC {
      report.Reject(BadMagic);
      return false;
    }
    parsable := |bytes| >= ELF32_HEADER_LEN;
  }

  function IdentRejections(ident: Ident): seq<Rejection>
  {
    If(ident.class_ != 1, NotClass32) + If(ident.data != 1, NotLittleEndian) + If(ident.version != 1, BadIdentVersion)
  }

  method CheckIdent(ident: Ident, report: Report)
    modifies report`rejections
    ensures report.rejections == old(report.rejections) + IdentRejections(ident)
  {
    if ident.class_ != 1 { report.Reject(NotClass32); }
    if ident.data != 1 { report.Reject(NotLittleEndian); }
    if ident.version != 1 { report.Reject(BadIdentVersion); }
  }

  function HeaderRejections(ident: Ident, h: Header): seq<Rejection>
  {
    If(h.version != 1, BadVersion) + If(h.kind != ET_EXEC, NotExecutable) + If(h.machine != EM_ARM, WrongMachine)
    + If(ident.class_ == 1 && h.ehsize != ELF32_HEADER_LEN, BadHeaderSize)
  }

  method CheckHeader(ident: Ident, h: Header, report: Report)
    modifies report`rejections
    ensures report.rejections == old(report.rejections) + HeaderRejections(ident, h)
  {
    if h.version != 1 { report.Reject(BadVersion); }
    if h.kind != ET_EXEC { report.Reject(NotExecutable); }
    if h.machine != EM_ARM { report.Reject(WrongMachine); }
    if ident.class_ == 1 && h.ehsize != ELF32_HEADER_LEN { report.Reject(BadHeaderSize); }
  }

  /** Soft findings about the ARM ABI flags: bits 24 to 31, and bit 10. */
  function AbiWarnings(ident: Ident, h: Header): seq<Warning>
  {
    if h.machine != EM_ARM || ident.class_ != 1 then []
    else
      var eabi, hardFloat := h.flags / 0x100_0000, h.flags / 0x400 % 2 == 1;
      (if eabi != 0 && eabi != EF_ARM_EABI_VER5 then [OldEabi] else []) + (if hardFloat then [] else [SoftFloat])
  }

  method CheckArmAbi(ident: Ident, h: Header, report: Report)
    modifies report`warnings
    ensures report.warnings == old(report.warnings) + AbiWarnings(ident, h)
  {
    if h.machine != EM_ARM || ident.class_ != 1 {
      return;
    }
    var eabi := h.flags / 0x100_0000;
    if eabi != 0 && eabi != EF_ARM_EABI_VER5 { report.Warn(OldEabi); }
    if h.flags / 0x400 % 2 == 0 { report.Warn(SoftFloat); }
  }

  // The width of `usize` is a parameter: at least 32 bits, and enough to hold the image.

  ghost predicate Addressable(bytes: Image, usizeMax: nat) { usizeMax >= U32_MAX && |bytes| <= usizeMax }

  function FcbRejections(bytes: Image, s: Segment, usizeMax: nat): seq<Rejection>
  {
    if s.filesz < 4 then [FcbSegmentTooSmall]
    else if s.offset + 4 > usizeMax then [FcbOffsetOverflows]
    else if s.offset + 4 > |bytes| then [FcbPastEnd]
    else If(bytes[s.offset..s.offset + 4] != FCB_TAG, FcbBadTag)
  }

  method CheckFcbSegment(bytes: Image, s: Segment, usizeMax: nat, fcbOk: bool, report: Report) returns (ok: bool)
    requires Addressable(bytes, usizeMax)
    modifies report`rejections
    ensures ok == (fcbOk || HoldsFcb(bytes, s))
    ensures report.rejections == old(report.rejections) + FcbRejections(bytes, s, usizeMax)
  {
    ok := fcbOk;
    if s.filesz < 4 {
      report.Reject(FcbSegmentTooSmall);
      return;
    }
    if s.offset + 4 > usizeMax {
      report.Reject(FcbOffsetOverflows);
      return;
    }
    if s.offset + 4 > |bytes| {
      report.Reject(FcbPastEnd);
    } else if bytes[s.offset..s.offset + 4] == FCB_TAG {
      ok := true;
    } else {
      report.Reject(FcbBadTag);
    }
  }

  function SegmentRejections(bytes: Image, h: Header, i: nat, usizeMax: nat): seq<Rejection>
  {
    var offset := h.phoff + Min(i * ELF32_PHDR_LEN, usizeMax);
    if offset > usizeMax then [HeaderOffsetOverflows(i)]
    else if offset + ELF32_PHDR_LEN > usizeMax then [HeaderUnaddressable(i)]
    else if offset + ELF32_PHDR_LEN > |bytes| then [HeaderPastEnd(i)]
    else if AtBase(bytes, h, i) then FcbRejections(bytes, SegmentAt(bytes, h, i), usizeMax)
    else []
  }

  function WalkRejections(bytes: Image, h: Header, n: nat, usizeMax: nat): seq<Rejection>
  {
    if n == 0 then [] else WalkRejections(bytes, h, n - 1, usizeMax) + SegmentRejections(bytes, h, n - 1, usizeMax)
  }

  /** What the walk learnt: the loadable size, and whether a valid configuration block and
      any loadable segment were seen. */
  datatype Survey = Survey(size: u64, fcbOk: bool, sawLoad: bool)

  ghost predicate SawLoad(bytes: Image, h: Header, n: nat)
  {
    exists i: nat :: i < n && IsLoad(bytes, h, i)
  }

  ghost predicate SawFcb(bytes: Image, h: Header, n: nat)
  {
    exists i: nat :: i < n && AtBase(bytes, h, i) && HoldsFcb(bytes, SegmentAt(bytes, h, i))
  }

  predicate Walkable(ident: Ident, h: Header)
  {
    ident.IsLe32() && h.phentsize == ELF32_PHDR_LEN && h.phnum > 0
  }

  ghost function SurveyOf(bytes: Image, ident: Ident, h: Header): Survey
  {
    if Walkable(ident, h) then
      Survey(LoadSum(bytes, h, h.phnum), SawFcb(bytes, h, h.phnum), SawLoad(bytes, h, h.phnum))
    else Survey(0, false, false)
  }

  function ProgramHeaderRejections(bytes: Image, ident: Ident, h: Header, usizeMax: nat): seq<Rejection>
  {
    if !ident.IsLe32() then []
    else if Walkable(ident, h) then WalkRejections(bytes, h, h.phnum, usizeMax)
    else If(h.phnum > 0, UnusableProgramHeaders)
  }

  method WalkProgramHeaders(bytes: Image, ident: Ident, h: Header, usizeMax: nat, report: Report) returns (survey: Survey)
    requires Addressable(bytes, usizeMax)
    modifies report`rejections
    ensures survey == SurveyOf(bytes, ident, h)
    ensures report.rejections == old(report.rejections) + ProgramHeaderRejections(bytes, ident, h, usizeMax)
  {
    survey := Survey(0, false, false);
    if !ident.IsLe32() {
      return;
    }
    if h.phentsize != ELF32_PHDR_LEN || h.phnum == 0 {
      if h.phnum > 0 { report.Reject(UnusableProgramHeaders); }
      return;
    }
    for index := 0 to h.phnum
      invariant survey == Survey(LoadSum(bytes, h, index), SawFcb(bytes, h, index), SawLoad(bytes, h, index))
      invariant report.rejections == old(report.rejections) + WalkRejections(bytes, h, index, usizeMax)
    {
      survey := WalkOne(bytes, h, index, usizeMax, survey, report);
    }
  }

  /** One turn of the walk. */
  method WalkOne(bytes: Image, h: Header, index: nat, usizeMax: nat, before: Survey, report: Report) returns (survey: Survey)
    requires Addressable(bytes, usizeMax) && index < 0xFFFF
    requires before == Survey(LoadSum(bytes, h, index), SawFcb(bytes, h, index), SawLoad(bytes, h, index))
    modifies report`rejections
    ensures survey == Survey(LoadSum(bytes, h, index + 1), SawFcb(bytes, h, index + 1), SawLoad(bytes, h, index + 1))
    ensures report.rejections == old(report.rejections) + SegmentRejections(bytes, h, index, usizeMax)
  {
    survey := before;
    var offset := h.phoff + Min(index * ELF32_PHDR_LEN, usizeMax);
    if offset > usizeMax {
      report.Reject(HeaderOffsetOverflows(index));
      return;
    }
    if offset + ELF32_PHDR_LEN > usizeMax {
      report.Reject(HeaderUnaddressable(index));
      return;
    }
    if offset + ELF32_PHDR_LEN > |bytes| {
      report.Reject(HeaderPastEnd(index));
      return;
    }
    var segment := SegmentAt(bytes, h, index);
    if segment.kind != PT_LOAD {
      return;
    }
    survey := survey.(sawLoad := true, size := Min(survey.size + segment.filesz, U64_MAX));
    if segment.paddr == FLEXSPI_BASE {
      var ok := CheckFcbSegment(bytes, segment, usizeMax, survey.fcbOk, report);
      survey := survey.(fcbOk := ok);
    }
  }

  /** What can only be judged after the walk, given the rejections so far. */
  function CoverageRejections(ident: Ident, h: Header, survey: Survey, before: seq<Rejection>): seq<Rejection>
  {
    var early := If(ident.IsLe32() && !survey.sawLoad && before == [] && h.phnum == 0, NoProgramHeaders)
                 + If(survey.size > TEENSY40_FLASH_CAPACITY, ImageTooLarge);
    var told := exists r :: r in before + early && r.MentionsFcb();
    early + If(ident.IsLe32() && survey.sawLoad && !survey.fcbOk && !told, FcbMissing)
  }

  method CheckLoadableCoverage(ident: Ident, h: Header, survey: Survey, report: Report)
    modifies report`rejections
    ensures report.rejections == old(report.rejections) + CoverageRejections(ident, h, survey, old(report.rejections))
  {
    if ident.IsLe32() && !survey.sawLoad && report.rejections == [] {
      if h.phnum == 0 { report.Reject(NoProgramHeaders); }
    }
    if survey.size > TEENSY40_FLASH_CAPACITY { report.Reject(ImageTooLarge); }
    if ident.IsLe32() && survey.sawLoad && !survey.fcbOk {
      var already := exists r :: r in report.rejections && r.MentionsFcb();
      if !already { report.Reject(FcbMissing); }
    }
  }

  /** Finds the interrupt vectors through the section headers. */
  method LocateVectorTable(bytes: Image, h: Header, usizeMax: nat) returns (r: Lookup)
    requires Addressable(bytes, usizeMax)
    ensures r == LookupOf(bytes, h)
  {
    if h.shnum == 0 || h.shoff == 0 { return Missing(NoSections); }
    if h.shentsize != ELF32_SHDR_LEN { return Missing(OddSectionSize); }
    if h.shstrndx >= h.shnum { return Missing(StringIndexOutOfRange); }

    var tableOffset := h.shoff + Min(h.shstrndx * ELF32_SHDR_LEN, usizeMax);
    if tableOffset > usizeMax || tableOffset + ELF32_SHDR_LEN > usizeMax { return Missing(StringHeaderUnreadable); }
    if tableOffset + ELF32_SHDR_LEN > |bytes| { return Missing(StringHeaderUnreadable); }

    var offset, size := ReadU32(bytes, tableOffset + 16), ReadU32(bytes, tableOffset + 20);
    if offset + size > usizeMax || offset + size > |bytes| { return Missing(StringTableUnreadable); }
    r := SearchSections(bytes, h, bytes[offset..offset + size], usizeMax);
  }

  method IsNamed(names: seq<u8>, offset: nat) returns (yes: bool)
    ensures yes == StandsAt(names, offset, VECTOR_TABLE)
  {
    NameIsReadIff(names, offset, VECTOR_TABLE);
    yes := ReadCString(names, offset) == Some(VECTOR_TABLE);
  }

  method SearchSections(bytes: Image, h: Header, names: seq<u8>, usizeMax: nat) returns (r: Lookup)
    requires Addressable(bytes, usizeMax) && SectionNames(bytes, h).0 == Some(names)
    ensures r == LookupOf(bytes, h)
  {
    for index := 0 to h.shnum
      invariant FirstVectorTable(bytes, h, names, 0) == FirstVectorTable(bytes, h, names, index)
    {
      var at := h.shoff + Min(index * ELF32_SHDR_LEN, usizeMax);
      if at > usizeMax || at + ELF32_SHDR_LEN > usizeMax || at + ELF32_SHDR_LEN > |bytes| { continue; }
      var named := IsNamed(names, ReadU32(bytes, at));
      if !named { continue; }
      r := ReadVectors(bytes, at, usizeMax);
      return;
    }
    r := Missing(NoSuchSection);
  }

  method ReadVectors(bytes: Image, at: nat, usizeMax: nat) returns (r: Lookup)
    requires Addressable(bytes, usizeMax) && at + ELF32_SHDR_LEN <= |bytes|
    ensures r == VectorsAt(bytes, at)
  {
    var offset, size := ReadU32(bytes, at + 16), ReadU32(bytes, at + 20);
    if size < 8 { return Missing(VectorsTooSmall); }
    if offset + 8 > usizeMax || offset + 8 > |bytes| { return Missing(VectorsUnreadable); }
    r := Found(ReadU32(bytes, offset), ReadU32(bytes, offset + 4));
  }

  function VectorRejections(r: Lookup): seq<Rejection>
  {
    if r.Found? then
      If(!AddressPlausible(r.sp), ImplausibleStack) + If(!AddressPlausible(ClearThumbBit(r.reset)), ImplausibleReset)
    else []
  }

  /** The first two vectors, if there was a table to read them from. */
  datatype VectorFacts = VectorFacts(initialSp: Option<u32>, resetHandler: Option<u32>)

  function FactsOf(r: Lookup): VectorFacts
  {
    if r.Found? then VectorFacts(Some(r.sp), Some(r.reset)) else VectorFacts(None, None)
  }

  method CheckVectorTable(bytes: Image, ident: Ident, h: Header, usizeMax: nat, report: Report) returns (facts: VectorFacts)
    requires Addressable(bytes, usizeMax)
    modifies report
    ensures var lookup := LookupIn(bytes, ident, h);
            && facts == FactsOf(lookup)
            && report.rejections == old(report.rejections) + VectorRejections(lookup)
            && report.warnings == old(report.warnings) + SkipWarnings(ident, lookup)
  {
    facts := VectorFacts(None, None);
    if !ident.IsLe32() {
      return;
    }
    var lookup := LocateVectorTable(bytes, h, usizeMax);
    match lookup
    case Found(sp, reset) =>
      facts := VectorFacts(Some(sp), Some(reset));
      if !AddressPlausible(sp) { report.Reject(ImplausibleStack); }
      if !AddressPlausible(ClearThumbBit(reset)) { report.Reject(ImplausibleReset); }
    case Missing(reason) =>
      report.Warn(VectorsSkipped(reason));
  }

  function SkipWarnings(ident: Ident, lookup: Lookup): seq<Warning>
  {
    if ident.IsLe32() && lookup.Missing? then [VectorsSkipped(lookup.reason)] else []
  }

  /** Sections are not looked at in an image that is not 32-bit little-endian. */
  function LookupIn(bytes: Image, ident: Ident, h: Header): Lookup
  {
    if ident.IsLe32() then LookupOf(bytes, h) else Missing(NoSections)
  }

  /** What an accepted image is reported to hold. */
  datatype ImageFacts = ImageFacts(loadableSize: u64, entry: u32, vectors: VectorFacts, flags: u32, warnings: seq<Warning>)

  datatype Verdict = Accepted(facts: ImageFacts) | Rejected(reasons: seq<Rejection>)

  /** Every rejection an image draws, in the order in which they are found. */
  ghost function AllRejections(bytes: Image, usizeMax: nat): seq<Rejection>
  {
    if !Parsable(bytes) then FramingRejections(bytes)
    else
      var ident, h := ReadIdent(bytes), ReadHeader(bytes);
      StructuralRejections(bytes, usizeMax) + VectorRejections(LookupIn(bytes, ident, h))
  }

  /** Those found before the vector table is looked at. */
  ghost function StructuralRejections(bytes: Image, usizeMax: nat): seq<Rejection>
    requires Parsable(bytes)
  {
    var ident, h := ReadIdent(bytes), ReadHeader(bytes);
    var before := IdentRejections(ident) + HeaderRejections(ident, h) + ProgramHeaderRejections(bytes, ident, h, usizeMax);
    before + CoverageRejections(ident, h, SurveyOf(bytes, ident, h), before)
  }

  /** Validates an image.  The verdict is `Flashable`, whatever the host's word size; the
      facts of an accepted image are those of its headers, and a refusal lists everything
      that was found, which is never nothing. */
  method ValidateImage(bytes: Image, usizeMax: nat) returns (r: Verdict)
    requires Addressable(bytes, usizeMax)
    ensures r.Accepted? <==> Flashable(bytes)
    ensures r.Accepted? ==>
              var h := ReadHeader(bytes);
              && r.facts.loadableSize == LoadSum(bytes, h, h.phnum) <= TEENSY40_FLASH_CAPACITY
              && r.facts.entry == h.entry && r.facts.flags == h.flags
              && r.facts.vectors == FactsOf(LookupOf(bytes, h))
              && r.facts.warnings == AbiWarnings(ReadIdent(bytes), h) + SkipWarnings(ReadIdent(bytes), LookupOf(bytes, h))
    ensures r.Rejected? ==> r.reasons == AllRejections(bytes, usizeMax) != []
  {
    var report := new Report();
    var parsable := CheckFraming(bytes, report);
    VerdictIsFlashable(bytes, usizeMax);
    if !parsable {
      return Rejected(report.rejections);
    }
    var facts := Examine(bytes, usizeMax, report);
    r := if report.rejections == [] then Accepted(facts) else Rejected(report.rejections);
  }

  /** All the checks on a file that carries a header, run to completion. */
  method Examine(bytes: Image, usizeMax: nat, report: Report) returns (facts: ImageFacts)
    requires Addressable(bytes, usizeMax) && Parsable(bytes) && report.rejections == [] && report.warnings == []
    modifies report
    ensures report.rejections == AllRejections(bytes, usizeMax)
    ensures var ident, h := ReadIdent(bytes), ReadHeader(bytes);
            && facts.loadableSize == SurveyOf(bytes, ident, h).size && facts.entry == h.entry && facts.flags == h.flags
            && facts.vectors == FactsOf(LookupIn(bytes, ident, h))
            && facts.warnings == AbiWarnings(ident, h) + SkipWarnings(ident, LookupIn(bytes, ident, h))
  {
    var ident, h := ReadIdent(bytes), ReadHeader(bytes);
    var survey := ExamineStructure(bytes, ident, h, usizeMax, report);
    var vectors := CheckVectorTable(bytes, ident, h, usizeMax, report);
    facts := ImageFacts(survey.size, h.entry, vectors, h.flags, report.warnings);
  }

  method ExamineStructure(bytes: Image, ident: Ident, h: Header, usizeMax: nat, report: Report) returns (survey: Survey)
    requires Addressable(bytes, usizeMax) && Parsable(bytes) && report.rejections == [] && report.warnings == []
    requires ident == ReadIdent(bytes) && h == ReadHeader(bytes)
    modifies report
    ensures survey == SurveyOf(bytes, ident, h)
    ensures report.rejections == StructuralRejections(bytes, usizeMax)
    ensures report.warnings == AbiWarnings(ident, h)
  {
    CheckIdent(ident, report);
    CheckHeader(ident, h, report);
    ghost var head := IdentRejections(ident) + HeaderRejections(ident, h);
    assert report.rejections == head;
    CheckArmAbi(ident, h, report);
    survey := WalkProgramHeaders(bytes, ident, h, usizeMax, report);
    ghost var before := head + ProgramHeaderRejections(bytes, ident, h, usizeMax);
    assert report.rejections == before;
    CheckLoadableCoverage(ident, h, survey, report);
    assert report.rejections == before + CoverageRejections(ident, h, survey, before);
  }

  // ----- Why the verdict is right -----

  lemma HeaderRejectionsSound(bytes: Image)
    requires Parsable(bytes)
    ensures var ident, h := ReadIdent(bytes), ReadHeader(bytes);
            (IdentRejections(ident) + HeaderRejections(ident, h) == [] && Walkable(ident, h)) <==> HeaderSound(bytes)
  {
  }

  /** One program header draws no rejection exactly when it is in the file and any
      configuration block it maps is genuine. */
  lemma SegmentRejectionsSound(bytes: Image, h: Header, i: nat, usizeMax: nat)
    requires Addressable(bytes, usizeMax) && i < 0xFFFF
    ensures SegmentRejections(bytes, h, i, usizeMax) == [] <==> SegmentSound(bytes, h, i)
  {
  }

  lemma OneMoreSegmentSound(bytes: Image, h: Header, n: nat)
    ensures AllSegmentsSound(bytes, h, n + 1) <==> AllSegmentsSound(bytes, h, n) && SegmentSound(bytes, h, n)
  {
  }

  lemma {:induction false} WalkRejectionsSound(bytes: Image, h: Header, n: nat, usizeMax: nat)
    requires Addressable(bytes, usizeMax) && n <= 0xFFFF
    ensures WalkRejections(bytes, h, n, usizeMax) == [] <==> AllSegmentsSound(bytes, h, n)
  {
    if n > 0 {
      WalkRejectionsSound(bytes, h, n - 1, usizeMax);
      SegmentRejectionsSound(bytes, h, n - 1, usizeMax);
      OneMoreSegmentSound(bytes, h, n - 1);
    }
  }

  lemma UnsoundHeaderIsRejected(bytes: Image, usizeMax: nat)
    requires Parsable(bytes) && !HeaderSound(bytes)
    ensures StructuralRejections(bytes, usizeMax) != []
  {
    HeaderRejectionsSound(bytes);
  }

  /** Once every segment is sound, the configuration block is seen exactly when some segment
      maps its address. */
  lemma CoverageIsSound(bytes: Image, ident: Ident, h: Header)
    requires ident.IsLe32() && Walkable(ident, h) && h.phnum > 0 && AllSegmentsSound(bytes, h, h.phnum)
    ensures CoverageRejections(ident, h, SurveyOf(bytes, ident, h), []) == [] <==>
            LoadSum(bytes, h, h.phnum) <= TEENSY40_FLASH_CAPACITY && (SawLoad(bytes, h, h.phnum) ==> MapsBase(bytes, h))
  {
    assert SawFcb(bytes, h, h.phnum) <==> MapsBase(bytes, h) by {
      if MapsBase(bytes, h) {
        var i: nat :| i < h.phnum && AtBase(bytes, h, i);
        assert SegmentSound(bytes, h, i);
      }
    }
  }

  lemma SoundHeaderLeavesSegments(bytes: Image, usizeMax: nat)
    requires Addressable(bytes, usizeMax) && HeaderSound(bytes)
    ensures StructuralRejections(bytes, usizeMax) == [] <==> SegmentsSound(bytes, ReadHeader(bytes))
  {
    var ident, h := ReadIdent(bytes), ReadHeader(bytes);
    HeaderRejectionsSound(bytes);
    var walk := WalkRejections(bytes, h, h.phnum, usizeMax);
    WalkRejectionsSound(bytes, h, h.phnum, usizeMax);
    assert [] + walk == walk;
    assert StructuralRejections(bytes, usizeMax) == walk + CoverageRejections(ident, h, SurveyOf(bytes, ident, h), walk);
    if walk == [] {
      CoverageIsSound(bytes, ident, h);
    }
  }

  lemma StructureIsSound(bytes: Image, usizeMax: nat)
    requires Addressable(bytes, usizeMax) && Parsable(bytes)
    ensures StructuralRejections(bytes, usizeMax) == [] <==>
            HeaderSound(bytes) && SegmentsSound(bytes, ReadHeader(bytes))
  {
    if HeaderSound(bytes) {
      SoundHeaderLeavesSegments(bytes, usizeMax);
    } else {
      UnsoundHeaderIsRejected(bytes, usizeMax);
    }
  }

  /** An image draws no rejection exactly when it is flashable. */
  lemma VerdictIsFlashable(bytes: Image, usizeMax: nat)
    requires Addressable(bytes, usizeMax)
    ensures AllRejections(bytes, usizeMax) == [] <==> Flashable(bytes)
  {
    if Parsable(bytes) {
      StructureIsSound(bytes, usizeMax);
    }
  }

  /** What an accepted image tells about the configuration block: it carries a genuine one
      exactly when it loads anything at all. */
  lemma FlashableCarriesFcbIff(bytes: Image)
    requires Flashable(bytes)
    ensures var h := ReadHeader(bytes); SawFcb(bytes, h, h.phnum) <==> SawLoad(bytes, h, h.phnum)
  {
    var h := ReadHeader(bytes);
    if MapsBase(bytes, h) {
      var i: nat :| i < h.phnum && AtBase(bytes, h, i);
      assert SegmentSound(bytes, h, i);
    }
  }

  /** A header announcing one program header, and that one of no kind: nothing is loaded. */
  function EmptyImageByte(i: nat): u8
  {
    match i
    case 0 => 0x7F
    case 1 => 0x45
    case 2 => 0x4C
    case 3 => 0x46
    case 4 => 1
    case 5 => 1
    case 6 => 1
    case 16 => 2
    case 18 => 0x28
    case 20 => 1
    case 28 => 52
    case 40 => 52
    case 42 => 32
    case 44 => 1
    case _ => 0
  }

  const EMPTY_IMAGE: Image := seq(84, i requires 0 <= i < 84 => EmptyImageByte(i))

  lemma EmptyImageHeader()
    ensures Parsable(EMPTY_IMAGE) && ReadIdent(EMPTY_IMAGE) == Ident(1, 1, 1)
    ensures ReadHeader(EMPTY_IMAGE) == Header(ET_EXEC, EM_ARM, 1, 0, 52, 0, 0, 52, 32, 1, 0, 0, 0)
  {
    var bytes := EMPTY_IMAGE;
    assert bytes[..4] == [bytes[0], bytes[1], bytes[2], bytes[3]];
  }

  /** Such an image exists: it is accepted although it carries no configuration block. */
  lemma NothingToLoadIsFlashable()
    ensures var bytes := EMPTY_IMAGE;
            Flashable(bytes) && !SawFcb(bytes, ReadHeader(bytes), ReadHeader(bytes).phnum)
  {
    EmptyImageHeader();
    var bytes := EMPTY_IMAGE;
    var h := ReadHeader(bytes);
    assert SegmentEnd(h, 0) == |bytes|;
    assert SegmentAt(bytes, h, 0).kind == 0;
    assert !IsLoad(bytes, h, 0);
    NothingToSum(bytes, h, 1);
  }

  lemma {:induction false} NothingToSum(bytes: Image, h: Header, n: nat)
    requires forall i: nat :: i < n ==> !IsLoad(bytes, h, i)
    ensures LoadSum(bytes, h, n) == 0
  {
    if n > 0 {
      NothingToSum(bytes, h, n - 1);
    }
  }
}
