/** Every reason the image gate can give, and exactly when it gives it (xtask/src/validate.rs). */
module ElfReasons {
  import opened ElfGate

  /** When an image is refused for a reason.  Without a whole header nothing else is looked at;
      program headers and vectors only matter in a 32-bit little-endian file. */
  ghost predicate Applies(bytes: Image, usizeMax: nat, r: Rejection)
  {
    if r.EmptyImage? then |bytes| == 0
    else if r.TooSmall? then 0 < |bytes| < 52
    else if r.BadMagic? then |bytes| >= 4 && bytes[..4] != [0x7F, 0x45, 0x4C, 0x46]
    else
      && Parsable(bytes)
      && var ident, h := ReadIdent(bytes), ReadHeader(bytes);
         || OfHeader(ident, h, r)
         || OfWalk(bytes, ident, h, usizeMax, r)
         || OfCoverage(ident, h, SurveyOf(bytes, ident, h), Early(bytes, usizeMax), r)
         || OfVectors(LookupIn(bytes, ident, h), r)
  }

  predicate OfHeader(ident: Ident, h: Header, r: Rejection)
  {
    match r
    case NotClass32 => ident.class_ != 1
    case NotLittleEndian => ident.data != 1
    case BadIdentVersion => ident.version != 1
    case BadVersion => h.version != 1
    case NotExecutable => h.kind != 2
    case WrongMachine => h.machine != 40
    case BadHeaderSize => ident.class_ == 1 && h.ehsize != 52
    case _ => false
  }

  /** Program header `i` is the matter: it does not fit the file, or what it maps to the start of
      flash is no configuration block. */
  predicate OfSegment(bytes: Image, h: Header, i: nat, usizeMax: nat, r: Rejection)
  {
    var end := h.phoff + 32 * i + 32;
    match r
    case HeaderOffsetOverflows(k) => k == i && end - 32 > usizeMax
    case HeaderUnaddressable(k) => k == i && end - 32 <= usizeMax < end
    case HeaderPastEnd(k) => k == i && |bytes| < end <= usizeMax
    case _ => end <= |bytes| && OfBlock(bytes, SegmentAt(bytes, h, i), usizeMax, r)
  }

  predicate OfBlock(bytes: Image, s: Segment, usizeMax: nat, r: Rejection)
  {
    && s.kind == 1 && s.paddr == 0x6000_0000
    && match r
       case FcbSegmentTooSmall => s.filesz < 4
       case FcbOffsetOverflows => s.filesz >= 4 && s.offset + 4 > usizeMax
       case FcbPastEnd => s.filesz >= 4 && |bytes| < s.offset + 4 <= usizeMax
       case FcbBadTag => s.filesz >= 4 && s.offset + 4 <= |bytes| && bytes[s.offset..s.offset + 4] != [70, 67, 70, 66]
       case _ => false
  }

  ghost predicate OfSomeSegment(bytes: Image, h: Header, n: nat, usizeMax: nat, r: Rejection)
  {
    exists i: nat :: i < n && OfSegment(bytes, h, i, usizeMax, r)
  }

  ghost predicate OfWalk(bytes: Image, ident: Ident, h: Header, usizeMax: nat, r: Rejection)
  {
    && ident.IsLe32()
    && if r.UnusableProgramHeaders? then h.phentsize != 32 && h.phnum > 0
       else h.phentsize == 32 && OfSomeSegment(bytes, h, h.phnum, usizeMax, r)
  }

  /** What is concluded when every program header has been seen, given what was said before. */
  predicate OfCoverage(ident: Ident, h: Header, survey: Survey, before: seq<Rejection>, r: Rejection)
  {
    match r
    case NoProgramHeaders => ident.IsLe32() && !survey.sawLoad && h.phnum == 0 && before == []
    case ImageTooLarge => survey.size > 2_031_616
    case FcbMissing =>
      ident.IsLe32() && survey.sawLoad && !survey.fcbOk && !exists q :: q in before && q.MentionsFcb()
    case _ => false
  }

  predicate OfVectors(lookup: Lookup, r: Rejection)
  {
    && lookup.Found?
    && match r
       case ImplausibleStack => !AddressPlausible(lookup.sp)
       case ImplausibleReset => !AddressPlausible(ClearThumbBit(lookup.reset))
       case _ => false
  }

  /** What is listed before the conclusions. */
  ghost function Early(bytes: Image, usizeMax: nat): seq<Rejection>
    requires Parsable(bytes)
  {
    var ident, h := ReadIdent(bytes), ReadHeader(bytes);
    IdentRejections(ident) + HeaderRejections(ident, h) + ProgramHeaderRejections(bytes, ident, h, usizeMax)
  }

  // ----- Part by part -----

  lemma HeaderPart(ident: Ident, h: Header, r: Rejection)
    ensures r in IdentRejections(ident) + HeaderRejections(ident, h) <==> OfHeader(ident, h, r)
  {
  }

  lemma SegmentPart(bytes: Image, h: Header, i: nat, usizeMax: nat, r: Rejection)
    requires Addressable(bytes, usizeMax) && i < 0xFFFF
    ensures r in SegmentRejections(bytes, h, i, usizeMax) <==> OfSegment(bytes, h, i, usizeMax, r)
  {
  }

  lemma OneMoreSegment(bytes: Image, h: Header, n: nat, usizeMax: nat, r: Rejection)
    ensures OfSomeSegment(bytes, h, n + 1, usizeMax, r) <==>
            OfSomeSegment(bytes, h, n, usizeMax, r) || OfSegment(bytes, h, n, usizeMax, r)
  {
  }

  lemma InMore(a: seq<Rejection>, b: seq<Rejection>, r: Rejection)
    ensures r in a + b <==> r in a || r in b
  {
  }

  lemma {:induction false} WalkPart(bytes: Image, h: Header, n: nat, usizeMax: nat, r: Rejection)
    requires Addressable(bytes, usizeMax) && n <= 0xFFFF
    ensures r in WalkRejections(bytes, h, n, usizeMax) <==> OfSomeSegment(bytes, h, n, usizeMax, r)
  {
    if n > 0 {
      WalkPart(bytes, h, n - 1, usizeMax, r);
      SegmentPart(bytes, h, n - 1, usizeMax, r);
      OneMoreSegment(bytes, h, n - 1, usizeMax, r);
      InMore(WalkRejections(bytes, h, n - 1, usizeMax), SegmentRejections(bytes, h, n - 1, usizeMax), r);
    }
  }

  lemma ProgramHeaderPart(bytes: Image, ident: Ident, h: Header, usizeMax: nat, r: Rejection)
    requires Addressable(bytes, usizeMax)
    ensures r in ProgramHeaderRejections(bytes, ident, h, usizeMax) <==> OfWalk(bytes, ident, h, usizeMax, r)
  {
    WalkPart(bytes, h, h.phnum, usizeMax, r);
  }

  lemma CoveragePart(ident: Ident, h: Header, survey: Survey, before: seq<Rejection>, r: Rejection)
    ensures r in CoverageRejections(ident, h, survey, before) <==> OfCoverage(ident, h, survey, before, r)
  {
  }

  lemma VectorPart(lookup: Lookup, r: Rejection)
    ensures r in VectorRejections(lookup) <==> OfVectors(lookup, r)
  {
  }

  lemma FramingPart(bytes: Image, usizeMax: nat, r: Rejection)
    requires !Parsable(bytes)
    ensures r in FramingRejections(bytes) <==> Applies(bytes, usizeMax, r)
  {
  }

  lemma FramingIsFine(bytes: Image, usizeMax: nat, r: Rejection)
    requires Parsable(bytes) && (r.EmptyImage? || r.TooSmall? || r.BadMagic?)
    ensures !Applies(bytes, usizeMax, r)
  {
  }

  lemma InFour(a: seq<Rejection>, b: seq<Rejection>, c: seq<Rejection>, d: seq<Rejection>, r: Rejection)
    ensures r in a + b + c + d <==> r in a || r in b || r in c || r in d
  {
  }

  lemma AllIsInParts(bytes: Image, usizeMax: nat)
    requires Parsable(bytes)
    ensures var ident, h := ReadIdent(bytes), ReadHeader(bytes);
            AllRejections(bytes, usizeMax)
            == IdentRejections(ident) + HeaderRejections(ident, h) + ProgramHeaderRejections(bytes, ident, h, usizeMax)
               + CoverageRejections(ident, h, SurveyOf(bytes, ident, h), Early(bytes, usizeMax))
               + VectorRejections(LookupIn(bytes, ident, h))
  {
  }

  /** Whatever else is wrong with an image, each of the reasons to refuse it is listed, and no
      other. */
  lemma EveryReasonIsListedIff(bytes: Image, usizeMax: nat, r: Rejection)
    requires Addressable(bytes, usizeMax)
    ensures r in AllRejections(bytes, usizeMax) <==> Applies(bytes, usizeMax, r)
  {
    if !Parsable(bytes) {
      FramingPart(bytes, usizeMax, r);
    } else {
      var ident, h := ReadIdent(bytes), ReadHeader(bytes);
      var survey, before, lookup := SurveyOf(bytes, ident, h), Early(bytes, usizeMax), LookupIn(bytes, ident, h);
      HeaderPart(ident, h, r);
      ProgramHeaderPart(bytes, ident, h, usizeMax, r);
      CoveragePart(ident, h, survey, before, r);
      VectorPart(lookup, r);
      AllIsInParts(bytes, usizeMax);
      InFour(IdentRejections(ident) + HeaderRejections(ident, h), ProgramHeaderRejections(bytes, ident, h, usizeMax),
             CoverageRejections(ident, h, survey, before), VectorRejections(lookup), r);
    }
  }
}
