/** What the image gate reads, against the records of the ELF format laid out field by field
    (System V ABI, chapter 4, sections "ELF Header" and "Sections", and chapter 5, section
    "Program Header"). */
module ElfRecords {
  import opened Ints
  import opened ElfGate

  // ----- Fields, least significant byte first -----

  function Half(x: u16): (s: seq<u8>)
    ensures |s| == 2
  {
    [x % 0x100, x / 0x100]
  }

  function Word(x: u32): (s: seq<u8>)
    ensures |s| == 4
  {
    [x % 0x100, x / 0x100 % 0x100, x / 0x1_0000 % 0x100, x / 0x100_0000]
  }

  function Words(xs: seq<u32>): (s: seq<u8>)
    ensures |s| == 4 * |xs|
  {
    if xs == [] then [] else Words(xs[..|xs| - 1]) + Word(xs[|xs| - 1])
  }

  function Halves(xs: seq<u16>): (s: seq<u8>)
    ensures |s| == 2 * |xs|
  {
    if xs == [] then [] else Halves(xs[..|xs| - 1]) + Half(xs[|xs| - 1])
  }

  /** These bytes stand at that place of the file. */
  predicate Holds(bytes: Image, at: nat, record: seq<u8>)
  {
    at + |record| <= |bytes| && bytes[at..at + |record|] == record
  }

  lemma HoldsPart(bytes: Image, at: nat, before: seq<u8>, part: seq<u8>, after: seq<u8>)
    requires Holds(bytes, at, before + part + after)
    ensures Holds(bytes, at + |before|, part)
  {
    var record, from := before + part + after, at + |before|;
    forall k | 0 <= k < |part|
      ensures bytes[from + k] == part[k]
    {
      assert bytes[at..at + |record|][|before| + k] == record[|before| + k];
    }
  }

  lemma HalfIsRead(bytes: Image, at: nat, x: u16)
    requires Holds(bytes, at, Half(x))
    ensures ReadU16(bytes, at) == x
  {
    assert bytes[at] == Half(x)[0] && bytes[at + 1] == Half(x)[1];
  }

  lemma WordIsRead(bytes: Image, at: nat, x: u32)
    requires Holds(bytes, at, Word(x))
    ensures ReadU32(bytes, at) == x
  {
    var s := bytes[at..at + 4];
    assert bytes[at] == s[0] && bytes[at + 1] == s[1] && bytes[at + 2] == s[2] && bytes[at + 3] == s[3];
    FourBytes(x);
  }

  lemma FourBytes(x: u32)
    ensures x % 0x100 + 0x100 * (x / 0x100 % 0x100) + 0x1_0000 * (x / 0x1_0000 % 0x100 + 0x100 * (x / 0x100_0000)) == x
  {
  }

  lemma {:induction false} WordsAreRead(bytes: Image, at: nat, xs: seq<u32>, i: nat)
    requires Holds(bytes, at, Words(xs)) && i < |xs|
    ensures at + 4 * i + 4 <= |bytes| && ReadU32(bytes, at + 4 * i) == xs[i]
  {
    var front, last := xs[..|xs| - 1], xs[|xs| - 1];
    if i == |xs| - 1 {
      assert Words(xs) == Words(front) + Word(last) + [];
      HoldsPart(bytes, at, Words(front), Word(last), []);
      WordIsRead(bytes, at + 4 * i, last);
    } else {
      assert Words(xs) == [] + Words(front) + Word(last);
      HoldsPart(bytes, at, [], Words(front), Word(last));
      WordsAreRead(bytes, at, front, i);
    }
  }

  lemma {:induction false} HalvesAreRead(bytes: Image, at: nat, xs: seq<u16>, i: nat)
    requires Holds(bytes, at, Halves(xs)) && i < |xs|
    ensures at + 2 * i + 2 <= |bytes| && ReadU16(bytes, at + 2 * i) == xs[i]
  {
    var front, last := xs[..|xs| - 1], xs[|xs| - 1];
    if i == |xs| - 1 {
      assert Halves(xs) == Halves(front) + Half(last) + [];
      HoldsPart(bytes, at, Halves(front), Half(last), []);
      HalfIsRead(bytes, at + 2 * i, last);
    } else {
      assert Halves(xs) == [] + Halves(front) + Half(last);
      HoldsPart(bytes, at, [], Halves(front), Half(last));
      HalvesAreRead(bytes, at, front, i);
    }
  }

  // ----- The three records -----

  /** `Elf32_Ehdr`; the rest of `e_ident` is padding. */
  datatype Ehdr = Ehdr(
    class_: u8, data: u8, identVersion: u8, padding: seq<u8>,
    type_: u16, machine: u16, version: u32, entry: u32, phoff: u32, shoff: u32, flags: u32,
    ehsize: u16, phentsize: u16, phnum: u16, shentsize: u16, shnum: u16, shstrndx: u16)
  {
    function Laid(): seq<u8>
    {
      [0x7F, 0x45, 0x4C, 0x46, class_, data, identVersion] + padding
      + Halves([type_, machine]) + Words([version, entry, phoff, shoff, flags])
      + Halves([ehsize, phentsize, phnum, shentsize, shnum, shstrndx])
    }

    predicate Whole() { |padding| == 9 }
  }

  /** `Elf32_Phdr`. */
  datatype Phdr = Phdr(type_: u32, offset: u32, vaddr: u32, paddr: u32, filesz: u32, memsz: u32, flags: u32, align: u32) {
    function Laid(): seq<u8> { Words([type_, offset, vaddr, paddr, filesz, memsz, flags, align]) }
  }

  /** `Elf32_Shdr`. */
  datatype Shdr = Shdr(
    name: u32, type_: u32, flags: u32, addr: u32, offset: u32, size: u32, link: u32, info: u32, addralign: u32, entsize: u32)
  {
    function Laid(): seq<u8> { Words([name, type_, flags, addr, offset, size, link, info, addralign, entsize]) }
  }

  lemma EhdrParts(bytes: Image, e: Ehdr)
    requires e.Whole() && Holds(bytes, 0, e.Laid())
    ensures Holds(bytes, 0, [0x7F, 0x45, 0x4C, 0x46, e.class_, e.data, e.identVersion])
    ensures Holds(bytes, 16, Halves([e.type_, e.machine]))
    ensures Holds(bytes, 20, Words([e.version, e.entry, e.phoff, e.shoff, e.flags]))
    ensures Holds(bytes, 40, Halves([e.ehsize, e.phentsize, e.phnum, e.shentsize, e.shnum, e.shstrndx]))
  {
    var a, b := [0x7F, 0x45, 0x4C, 0x46, e.class_, e.data, e.identVersion], e.padding;
    var c, d := Halves([e.type_, e.machine]), Words([e.version, e.entry, e.phoff, e.shoff, e.flags]);
    var f := Halves([e.ehsize, e.phentsize, e.phnum, e.shentsize, e.shnum, e.shstrndx]);
    assert e.Laid() == [] + a + (b + c + d + f);
    HoldsPart(bytes, 0, [], a, b + c + d + f);
    assert e.Laid() == (a + b) + c + (d + f);
    HoldsPart(bytes, 0, a + b, c, d + f);
    assert e.Laid() == (a + b + c) + d + f;
    HoldsPart(bytes, 0, a + b + c, d, f);
    assert e.Laid() == (a + b + c + d) + f + [];
    HoldsPart(bytes, 0, a + b + c + d, f, []);
  }

  /** The file header is read field by field, whatever follows it. */
  lemma HeaderIsRead(bytes: Image, e: Ehdr)
    requires e.Whole() && Holds(bytes, 0, e.Laid())
    ensures Parsable(bytes) && ReadIdent(bytes) == Ident(e.class_, e.data, e.identVersion)
    ensures ReadHeader(bytes) == Header(e.type_, e.machine, e.version, e.entry, e.phoff, e.shoff, e.flags,
                                        e.ehsize, e.phentsize, e.phnum, e.shentsize, e.shnum, e.shstrndx)
  {
    EhdrParts(bytes, e);
    IdentIsRead(bytes, e);
    FirstHalves(bytes, e);
    HeaderWords(bytes, e);
    LastHalves(bytes, e);
  }

  lemma IdentIsRead(bytes: Image, e: Ehdr)
    requires |bytes| >= 52 && Holds(bytes, 0, [0x7F, 0x45, 0x4C, 0x46, e.class_, e.data, e.identVersion])
    ensures Parsable(bytes) && ReadIdent(bytes) == Ident(e.class_, e.data, e.identVersion)
  {
    var s := bytes[0..7];
    assert bytes[4] == s[4] && bytes[5] == s[5] && bytes[6] == s[6];
    assert bytes[..4] == s[..4] == [0x7F, 0x45, 0x4C, 0x46];
  }

  lemma FirstHalves(bytes: Image, e: Ehdr)
    requires Holds(bytes, 16, Halves([e.type_, e.machine]))
    ensures |bytes| >= 20 && ReadU16(bytes, 16) == e.type_ && ReadU16(bytes, 18) == e.machine
  {
    HalvesAreRead(bytes, 16, [e.type_, e.machine], 0);
    HalvesAreRead(bytes, 16, [e.type_, e.machine], 1);
  }

  lemma HeaderWords(bytes: Image, e: Ehdr)
    requires Holds(bytes, 20, Words([e.version, e.entry, e.phoff, e.shoff, e.flags]))
    ensures |bytes| >= 40 && ReadU32(bytes, 20) == e.version && ReadU32(bytes, 24) == e.entry
    ensures ReadU32(bytes, 28) == e.phoff && ReadU32(bytes, 32) == e.shoff && ReadU32(bytes, 36) == e.flags
  {
    var xs := [e.version, e.entry, e.phoff, e.shoff, e.flags];
    WordsAreRead(bytes, 20, xs, 0);
    WordsAreRead(bytes, 20, xs, 1);
    WordsAreRead(bytes, 20, xs, 2);
    WordsAreRead(bytes, 20, xs, 3);
    WordsAreRead(bytes, 20, xs, 4);
  }

  lemma LastHalves(bytes: Image, e: Ehdr)
    requires Holds(bytes, 40, Halves([e.ehsize, e.phentsize, e.phnum, e.shentsize, e.shnum, e.shstrndx]))
    ensures |bytes| >= 52 && ReadU16(bytes, 40) == e.ehsize && ReadU16(bytes, 42) == e.phentsize
    ensures ReadU16(bytes, 44) == e.phnum && ReadU16(bytes, 46) == e.shentsize
    ensures ReadU16(bytes, 48) == e.shnum && ReadU16(bytes, 50) == e.shstrndx
  {
    var xs := [e.ehsize, e.phentsize, e.phnum, e.shentsize, e.shnum, e.shstrndx];
    HalvesAreRead(bytes, 40, xs, 0);
    HalvesAreRead(bytes, 40, xs, 1);
    HalvesAreRead(bytes, 40, xs, 2);
    HalvesAreRead(bytes, 40, xs, 3);
    HalvesAreRead(bytes, 40, xs, 4);
    HalvesAreRead(bytes, 40, xs, 5);
  }

  /** A program header is read at its place in the table: the physical address of a segment and
      its size in the file, not in memory. */
  lemma SegmentIsRead(bytes: Image, h: Header, i: nat, p: Phdr)
    requires Holds(bytes, h.phoff + 32 * i, p.Laid())
    ensures SegmentEnd(h, i) <= |bytes| && SegmentAt(bytes, h, i) == Segment(p.type_, p.offset, p.paddr, p.filesz)
  {
    var xs, from := [p.type_, p.offset, p.vaddr, p.paddr, p.filesz, p.memsz, p.flags, p.align], h.phoff + 32 * i;
    WordsAreRead(bytes, from, xs, 0);
    WordsAreRead(bytes, from, xs, 1);
    WordsAreRead(bytes, from, xs, 3);
    WordsAreRead(bytes, from, xs, 4);
  }

  lemma ShdrIsRead(bytes: Image, from: nat, s: Shdr)
    requires Holds(bytes, from, s.Laid())
    ensures from + 40 <= |bytes| && ReadU32(bytes, from) == s.name
    ensures ReadU32(bytes, from + 16) == s.offset && ReadU32(bytes, from + 20) == s.size
  {
    var xs := [s.name, s.type_, s.flags, s.addr, s.offset, s.size, s.link, s.info, s.addralign, s.entsize];
    WordsAreRead(bytes, from, xs, 0);
    WordsAreRead(bytes, from, xs, 4);
    WordsAreRead(bytes, from, xs, 5);
  }

  /** The section that holds the names is the one the file header points at. */
  lemma SectionNamesAreRead(bytes: Image, h: Header, s: Shdr)
    requires h.shoff != 0 && h.shentsize == 40 && h.shstrndx < h.shnum
    requires Holds(bytes, h.shoff + 40 * h.shstrndx, s.Laid())
    ensures SectionNames(bytes, h)
         == if s.offset + s.size <= |bytes| then (Some(bytes[s.offset..s.offset + s.size]), NoSuchSection)
            else (None, StringTableUnreadable)
  {
    ShdrIsRead(bytes, h.shoff + 40 * h.shstrndx, s);
  }

  /** A section is the vector table when its name, in the table of names, is. */
  lemma VectorTableIsNamed(bytes: Image, h: Header, names: seq<u8>, i: nat, s: Shdr)
    requires Holds(bytes, h.shoff + 40 * i, s.Laid())
    ensures IsVectorTable(bytes, h, names, i) <==> StandsAt(names, s.name, VECTOR_TABLE)
  {
    ShdrIsRead(bytes, h.shoff + 40 * i, s);
  }

  /** Its first two words are the stack pointer, then the reset handler. */
  lemma VectorsAreRead(bytes: Image, from: nat, s: Shdr, sp: u32, reset: u32)
    requires Holds(bytes, from, s.Laid()) && s.size >= 8 && Holds(bytes, s.offset, Words([sp, reset]))
    ensures VectorsAt(bytes, from) == Found(sp, reset)
  {
    ShdrIsRead(bytes, from, s);
    WordsAreRead(bytes, s.offset, [sp, reset], 0);
    WordsAreRead(bytes, s.offset, [sp, reset], 1);
  }

  // ----- Whole images -----

  /** A file with this header and, where the header says, these program headers; what else is in
      it, and in what order, is open. */
  ghost predicate IsElf(bytes: Image, e: Ehdr, ps: seq<Phdr>)
  {
    && e.Whole() && Holds(bytes, 0, e.Laid()) && |ps| == e.phnum
    && forall i :: 0 <= i < |ps| ==> PhdrAt(bytes, e, i, ps[i])
  }

  predicate PhdrAt(bytes: Image, e: Ehdr, i: nat, p: Phdr) { Holds(bytes, e.phoff + 32 * i, p.Laid()) }

  predicate Loads(p: Phdr) { p.type_ == 1 }

  /** A segment the boot ROM finds at the start of external flash. */
  predicate MapsFlash(p: Phdr) { Loads(p) && p.paddr == 0x6000_0000 }

  /** It begins with the letters FCFB. */
  predicate StartsWithFcb(bytes: Image, p: Phdr) { p.filesz >= 4 && Holds(bytes, p.offset, [70, 67, 70, 66]) }

  /** How much the boot ROM has to load. */
  function LoadedBytes(ps: seq<Phdr>): nat
  {
    if ps == [] then 0
    else LoadedBytes(ps[..|ps| - 1]) + if Loads(ps[|ps| - 1]) then ps[|ps| - 1].filesz else 0
  }

  lemma PhdrIsRead(bytes: Image, e: Ehdr, ps: seq<Phdr>, i: nat)
    requires IsElf(bytes, e, ps) && i < |ps|
    ensures var h, p := ReadHeader(bytes), ps[i];
            && SegmentEnd(h, i) <= |bytes| && SegmentAt(bytes, h, i) == Segment(p.type_, p.offset, p.paddr, p.filesz)
            && (IsLoad(bytes, h, i) <==> Loads(p)) && (AtBase(bytes, h, i) <==> MapsFlash(p))
            && (HoldsFcb(bytes, SegmentAt(bytes, h, i)) <==> StartsWithFcb(bytes, p))
  {
    HeaderIsRead(bytes, e);
    assert PhdrAt(bytes, e, i, ps[i]);
    SegmentIsRead(bytes, ReadHeader(bytes), i, ps[i]);
  }

  lemma OneMoreLoaded(ps: seq<Phdr>, n: nat)
    requires n < |ps|
    ensures LoadedBytes(ps[..n + 1]) == LoadedBytes(ps[..n]) + if Loads(ps[n]) then ps[n].filesz else 0
  {
    assert ps[..n + 1][..n] == ps[..n];
  }

  lemma OneMoreSummed(bytes: Image, e: Ehdr, ps: seq<Phdr>, n: nat)
    requires IsElf(bytes, e, ps) && n < |ps| && LoadSum(bytes, ReadHeader(bytes), n) == LoadedBytes(ps[..n])
    ensures LoadSum(bytes, ReadHeader(bytes), n + 1) == LoadedBytes(ps[..n + 1])
  {
    PhdrIsRead(bytes, e, ps, n);
    OneMoreLoaded(ps, n);
  }

  /** The loadable size is what the segments take up in the file. */
  lemma {:induction false} LoadedIsSummed(bytes: Image, e: Ehdr, ps: seq<Phdr>, n: nat)
    requires IsElf(bytes, e, ps) && n <= |ps|
    ensures LoadSum(bytes, ReadHeader(bytes), n) == LoadedBytes(ps[..n])
  {
    if n > 0 {
      LoadedIsSummed(bytes, e, ps, n - 1);
      OneMoreSummed(bytes, e, ps, n - 1);
    }
  }

  /** The header of an executable for the chip. */
  predicate ForTheChip(e: Ehdr)
  {
    && e.class_ == 1 && e.data == 1 && e.identVersion == 1
    && e.type_ == 2 && e.machine == 40 && e.version == 1 && e.ehsize == 52 && e.phentsize == 32 && e.phnum > 0
  }

  ghost predicate SomeLoads(ps: seq<Phdr>) { exists i :: 0 <= i < |ps| && Loads(ps[i]) }

  ghost predicate SomeMapsFlash(ps: seq<Phdr>) { exists i :: 0 <= i < |ps| && MapsFlash(ps[i]) }

  ghost predicate GenuineFcbs(bytes: Image, ps: seq<Phdr>)
  {
    forall i :: 0 <= i < |ps| && MapsFlash(ps[i]) ==> StartsWithFcb(bytes, ps[i])
  }

  lemma SegmentsAreJudged(bytes: Image, e: Ehdr, ps: seq<Phdr>)
    requires IsElf(bytes, e, ps)
    ensures var h := ReadHeader(bytes);
            && h.phnum == |ps|
            && (AllSegmentsSound(bytes, h, h.phnum) <==> GenuineFcbs(bytes, ps))
            && ((exists i: nat :: i < h.phnum && IsLoad(bytes, h, i)) <==> SomeLoads(ps))
            && (MapsBase(bytes, h) <==> SomeMapsFlash(ps))
  {
    var h := ReadHeader(bytes);
    HeaderIsRead(bytes, e);
    forall i: nat | i < |ps|
      ensures SegmentSound(bytes, h, i) <==> (MapsFlash(ps[i]) ==> StartsWithFcb(bytes, ps[i]))
      ensures IsLoad(bytes, h, i) <==> Loads(ps[i])
      ensures AtBase(bytes, h, i) <==> MapsFlash(ps[i])
    {
      PhdrIsRead(bytes, e, ps, i);
    }
    if GenuineFcbs(bytes, ps) {
      assert forall i: nat :: i < h.phnum ==> SegmentSound(bytes, h, i);
    }
    if AllSegmentsSound(bytes, h, h.phnum) {
      forall i | 0 <= i < |ps| && MapsFlash(ps[i])
        ensures StartsWithFcb(bytes, ps[i])
      {
        assert SegmentSound(bytes, h, i);
      }
    }
  }

  /** The verdict on a file, in terms of its records alone: what is in the file counts against the
      flash, not what a segment takes up in memory, and it is the physical address that decides
      where a segment goes. */
  lemma FlashableRecords(bytes: Image, e: Ehdr, ps: seq<Phdr>)
    requires IsElf(bytes, e, ps)
    ensures Flashable(bytes) <==>
              && ForTheChip(e)
              && LoadedBytes(ps) <= 2_031_616 && GenuineFcbs(bytes, ps) && (SomeLoads(ps) ==> SomeMapsFlash(ps))
              && VectorsPlausible(LookupOf(bytes, ReadHeader(bytes)))
    ensures LoadSum(bytes, ReadHeader(bytes), e.phnum) == LoadedBytes(ps)
  {
    HeaderIsRead(bytes, e);
    SegmentsAreJudged(bytes, e, ps);
    LoadedIsSummed(bytes, e, ps, |ps|);
    assert ps[..|ps|] == ps;
  }

  /** ... and these section headers. */
  ghost predicate HasSections(bytes: Image, e: Ehdr, ss: seq<Shdr>)
  {
    && e.Whole() && Holds(bytes, 0, e.Laid()) && |ss| == e.shnum
    && e.shoff != 0 && e.shentsize == 40 && e.shstrndx < e.shnum
    && forall i :: 0 <= i < |ss| ==> ShdrAt(bytes, e, i, ss[i])
  }

  predicate ShdrAt(bytes: Image, e: Ehdr, i: nat, s: Shdr) { Holds(bytes, e.shoff + 40 * i, s.Laid()) }

  /** What a section contains. */
  function Contents(bytes: Image, s: Shdr): seq<u8>
    requires s.offset + s.size <= |bytes|
  {
    bytes[s.offset..s.offset + s.size]
  }

  /** The section's name in a table of names is `.vector_table`. */
  predicate Named(names: seq<u8>, s: Shdr) { StandsAt(names, s.name, VECTOR_TABLE) }

  lemma NameIsSpelled()
    ensures |VECTOR_TABLE| == |".vector_table"| == 13
    ensures forall i :: 0 <= i < 13 ==> VECTOR_TABLE[i] == ".vector_table"[i] as int
  {
    forall i: nat | i < 13
      ensures VECTOR_TABLE[i] == ".vector_table"[i] as int
    {
      Letter(i);
    }
  }

  lemma Letter(i: nat)
    requires i < 13
    ensures VECTOR_TABLE[i] == ".vector_table"[i] as int
  {
    if i < 7 {
      if i == 0 {} else if i == 1 {} else if i == 2 {} else if i == 3 {} else if i == 4 {} else if i == 5 {} else {}
    } else {
      if i == 7 {} else if i == 8 {} else if i == 9 {} else if i == 10 {} else if i == 11 {} else {}
    }
  }

  lemma SectionIsNamed(bytes: Image, e: Ehdr, ss: seq<Shdr>, names: seq<u8>, i: nat)
    requires HasSections(bytes, e, ss) && i < |ss|
    ensures IsVectorTable(bytes, ReadHeader(bytes), names, i) <==> Named(names, ss[i])
  {
    HeaderIsRead(bytes, e);
    assert ShdrAt(bytes, e, i, ss[i]);
    VectorTableIsNamed(bytes, ReadHeader(bytes), names, i, ss[i]);
  }

  lemma {:induction false} FirstFrom(bytes: Image, h: Header, names: seq<u8>, from: nat, i: nat)
    requires from <= i <= h.shnum && (i < h.shnum ==> IsVectorTable(bytes, h, names, i))
    requires forall j :: from <= j < i ==> !IsVectorTable(bytes, h, names, j)
    ensures FirstVectorTable(bytes, h, names, from) == if i < h.shnum then Some(i) else None
    decreases i - from
  {
    if from < i {
      FirstFrom(bytes, h, names, from + 1, i);
    }
  }

  lemma FirstNamed(bytes: Image, e: Ehdr, ss: seq<Shdr>, names: seq<u8>, i: nat)
    requires HasSections(bytes, e, ss) && i <= |ss| && (i < |ss| ==> Named(names, ss[i]))
    requires forall j :: 0 <= j < i ==> !Named(names, ss[j])
    ensures FirstVectorTable(bytes, ReadHeader(bytes), names, 0) == if i < |ss| then Some(i) else None
  {
    var h := ReadHeader(bytes);
    HeaderIsRead(bytes, e);
    forall j | 0 <= j < i
      ensures !IsVectorTable(bytes, h, names, j)
    {
      SectionIsNamed(bytes, e, ss, names, j);
    }
    if i < |ss| {
      SectionIsNamed(bytes, e, ss, names, i);
    }
    FirstFrom(bytes, h, names, 0, i);
  }

  lemma LookupIs(bytes: Image, h: Header, names: seq<u8>, i: nat)
    requires SectionNames(bytes, h).0 == Some(names) && FirstVectorTable(bytes, h, names, 0) == Some(i)
    ensures LookupOf(bytes, h) == VectorsAt(bytes, SectionStart(h, i))
  {
  }

  lemma SectionFields(bytes: Image, e: Ehdr)
    requires e.Whole() && Holds(bytes, 0, e.Laid())
    ensures var h := ReadHeader(bytes);
            h.shoff == e.shoff && h.shentsize == e.shentsize && h.shnum == e.shnum && h.shstrndx == e.shstrndx
  {
    HeaderIsRead(bytes, e);
  }

  lemma TableIsAt(bytes: Image, e: Ehdr, ss: seq<Shdr>, i: nat)
    requires HasSections(bytes, e, ss) && i < |ss|
    ensures Holds(bytes, SectionStart(ReadHeader(bytes), i), ss[i].Laid())
  {
    SectionFields(bytes, e);
    assert ShdrAt(bytes, e, i, ss[i]);
  }

  lemma NamesAreFound(bytes: Image, e: Ehdr, ss: seq<Shdr>)
    requires HasSections(bytes, e, ss) && ss[e.shstrndx].offset + ss[e.shstrndx].size <= |bytes|
    ensures SectionNames(bytes, ReadHeader(bytes)) == (Some(Contents(bytes, ss[e.shstrndx])), NoSuchSection)
  {
    SectionFields(bytes, e);
    TableIsAt(bytes, e, ss, e.shstrndx);
    SectionNamesAreRead(bytes, ReadHeader(bytes), ss[e.shstrndx]);
  }

  /** The vectors that are judged and reported are the first two words, the stack pointer and then
      the reset handler, of the first section with that name. */
  lemma VectorsAreFound(bytes: Image, e: Ehdr, ss: seq<Shdr>, i: nat, sp: u32, reset: u32)
    requires HasSections(bytes, e, ss) && ss[e.shstrndx].offset + ss[e.shstrndx].size <= |bytes| && i < |ss|
    requires var names := Contents(bytes, ss[e.shstrndx]); Named(names, ss[i]) && forall j :: 0 <= j < i ==> !Named(names, ss[j])
    requires ss[i].size >= 8 && Holds(bytes, ss[i].offset, Words([sp, reset]))
    ensures var lookup := LookupOf(bytes, ReadHeader(bytes));
            lookup == Found(sp, reset) && FactsOf(lookup).initialSp == Some(sp) && FactsOf(lookup).resetHandler == Some(reset)
  {
    var h, names := ReadHeader(bytes), Contents(bytes, ss[e.shstrndx]);
    NamesAreFound(bytes, e, ss);
    FirstNamed(bytes, e, ss, names, i);
    LookupIs(bytes, h, names, i);
    TableIsAt(bytes, e, ss, i);
    VectorsAreRead(bytes, SectionStart(h, i), ss[i], sp, reset);
  }

  /** When no section has the name there are none to judge. */
  lemma NoVectorsAreFound(bytes: Image, e: Ehdr, ss: seq<Shdr>)
    requires HasSections(bytes, e, ss) && ss[e.shstrndx].offset + ss[e.shstrndx].size <= |bytes|
    requires forall j :: 0 <= j < |ss| ==> !Named(Contents(bytes, ss[e.shstrndx]), ss[j])
    ensures LookupOf(bytes, ReadHeader(bytes)) == Missing(NoSuchSection)
  {
    NamesAreFound(bytes, e, ss);
    FirstNamed(bytes, e, ss, Contents(bytes, ss[e.shstrndx]), |ss|);
    HeaderIsRead(bytes, e);
  }

  /** The names can be looked up at all unless the file says it has no sections, or has them in
      another size, or its table of names is not one of them or not in the file. */
  lemma NamesAreReadIff(bytes: Image, h: Header)
    ensures var (names, reason) := SectionNames(bytes, h);
            var none, at := h.shnum == 0 || h.shoff == 0, h.shoff + 40 * h.shstrndx;
            && (names.None? && reason == NoSections <==> none)
            && (names.None? && reason == OddSectionSize <==> !none && h.shentsize != 40)
            && (names.None? && reason == StringIndexOutOfRange <==> !none && h.shentsize == 40 && h.shstrndx >= h.shnum)
            && (names.None? && reason == StringHeaderUnreadable <==>
                  !none && h.shentsize == 40 && h.shstrndx < h.shnum && at + 40 > |bytes|)
  {
  }

  /** The chip's memories: half a megabyte each of ITCM, DTCM and OCRAM, and 128 megabytes behind
      FlexSPI. */
  predicate InMemory(address: u32)
  {
    address / 0x8_0000 in {0, 0x400, 0x404} || address / 0x800_0000 == 12
  }

  lemma PlausibleIsInMemory(address: u32)
    ensures AddressPlausible(address) <==> InMemory(address)
  {
  }

  /** Both vectors have to lie in one; the reset vector's Thumb bit makes no difference. */
  lemma VectorsAreJudged(sp: u32, reset: u32)
    ensures VectorsPlausible(Found(sp, reset)) <==> InMemory(sp) && InMemory(reset)
  {
    PlausibleIsInMemory(sp);
    PlausibleIsInMemory(reset);
    PlausibleIsInMemory(ClearThumbBit(reset));
  }

  /** The warnings about the ARM ABI, from the fields of the header's flags. */
  lemma FlagsAreWarnedAbout(h: Header, eabi: nat, middle: nat, hard: bool, low: nat)
    requires eabi < 0x100 && middle < 0x2000 && low < 0x400
    requires h.machine == 40 && h.flags == 0x100_0000 * eabi + 0x800 * middle + (if hard then 0x400 else 0) + low
    ensures var warnings := AbiWarnings(Ident(1, 1, 1), h);
            && (OldEabi in warnings <==> eabi != 0 && eabi != 5)
            && (SoftFloat in warnings <==> !hard)
  {
    assert h.flags / 0x400 == 0x4000 * eabi + 2 * middle + if hard then 1 else 0;
  }
}
