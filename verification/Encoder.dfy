/** `QrCode::encodeSegments` and the text and binary entry points. */
module Encoder {
  import opened Wrappers
  import opened Bits
  import opened Versions
  import opened Packing
  import opened Segments
  import opened SegmentParsing
  import opened DataBits
  import opened Zigzag
  import opened Symbols
  import opened QrCodes

  // ----- how long the stream is

  /** Every character count fits its field. */
  ghost predicate CountsFit(segs: seq<QrSegment>, ver: int)
    requires 1 <= ver <= 40
  {
    forall i :: 0 <= i < |segs| ==> CountFits(segs[i], ver)
  }

  lemma {:induction false} StreamStep(segs: seq<QrSegment>, ver: int, i: nat)
    requires 1 <= ver <= 40 && i < |segs|
    ensures StreamBits(segs[i..], ver) == SegmentBits(segs[i], ver) + StreamBits(segs[i + 1..], ver)
  {
    assert segs[i..][1..] == segs[i + 1..];
  }

  /** `QrSegment::getTotalBits`: the length of the stream, or -1 exactly when a count or the total overflows. */
  method GetTotalBits(segs: seq<QrSegment>, version: int) returns (result: int)
    requires 1 <= version <= 40
    ensures result == if CountsFit(segs, version) && |StreamBits(segs, version)| <= INT_MAX
                      then |StreamBits(segs, version)| else -1
  {
    result := 0;
    assert segs[0..] == segs;
    for i := 0 to |segs|
      invariant 0 <= result <= INT_MAX
      invariant result + |StreamBits(segs[i..], version)| == |StreamBits(segs, version)|
      invariant forall k :: 0 <= k < i ==> CountFits(segs[k], version)
    {
      var seg := segs[i];
      StreamStep(segs, version, i);
      var ccbits := seg.mode.CountBits(version);
      if seg.numChars >= Pow2(ccbits) {
        assert !CountFits(segs[i], version);
        return -1;
      }
      if 4 + ccbits > INT_MAX - result {
        return -1;
      }
      result := result + 4 + ccbits;
      if |seg.data| > INT_MAX - result {
        return -1;
      }
      result := result + |seg.data|;
    }
  }

  // ----- choice of version and level

  /** The segments fit a symbol of the version with so many data codewords. */
  ghost predicate Fits(segs: seq<QrSegment>, ver: int, codewords: int)
    requires 1 <= ver <= 40
  {
    CountsFit(segs, ver) && |StreamBits(segs, ver)| <= 8 * codewords
  }

  lemma {:induction false} CapacityBound(ver: int, ecl: Ecc)
    requires MIN_VERSION <= ver <= MAX_VERSION
    ensures 0 < NumDataCodewords(ver, ecl) <= 3706
  {
    BlockParameters(ver, ecl);
    MulComm(NumErrorCorrectionBlocks(ecl, ver), EccCodewordsPerBlock(ecl, ver));
    RawModulesInRange(ver);
  }

  /** The segments fit the version at the level. */
  ghost predicate Holds(segs: seq<QrSegment>, ver: int, ecl: Ecc)
    requires MIN_VERSION <= ver <= MAX_VERSION
  {
    Fits(segs, ver, NumDataCodewords(ver, ecl))
  }

  /** The test of the version loop. */
  method VersionFits(segs: seq<QrSegment>, version: int, ecl: Ecc) returns (fits: bool, dataUsedBits: int)
    requires MIN_VERSION <= version <= MAX_VERSION
    ensures fits == Holds(segs, version, ecl)
    ensures fits ==> dataUsedBits == |StreamBits(segs, version)|
  {
    CapacityBound(version, ecl);
    var dataCapacityBits := NumDataCodewords(version, ecl) * 8;
    dataUsedBits := GetTotalBits(segs, version);
    fits := dataUsedBits != -1 && dataUsedBits <= dataCapacityBits;
  }

  /** No version from `low` up to but not including `high` holds the segments. */
  ghost predicate NoneHolds(segs: seq<QrSegment>, ecl: Ecc, low: int, high: int)
    requires MIN_VERSION <= low && high <= MAX_VERSION + 1
  {
    forall v :: low <= v < high ==> !Holds(segs, v, ecl)
  }

  /** The version loop of `QrCode::encodeSegments`: the least version in the range that fits. */
  method ChooseVersion(segs: seq<QrSegment>, ecl: Ecc, minVersion: int, maxVersion: int)
    returns (found: bool, version: int, dataUsedBits: int)
    requires MIN_VERSION <= minVersion <= maxVersion <= MAX_VERSION
    ensures minVersion <= version <= maxVersion && (!found ==> version == maxVersion)
    ensures NoneHolds(segs, ecl, minVersion, version) && found == Holds(segs, version, ecl)
    ensures found <==> !NoneHolds(segs, ecl, minVersion, maxVersion + 1)
    ensures found ==> dataUsedBits == |StreamBits(segs, version)|
  {
    version := minVersion;
    while true
      invariant minVersion <= version <= maxVersion && NoneHolds(segs, ecl, minVersion, version)
      decreases maxVersion - version
    {
      found, dataUsedBits := VersionFits(segs, version, ecl);
      if found || version >= maxVersion {
        return;
      }
      version := version + 1;
    }
  }

  function Rank(ecl: Ecc): nat
  {
    match ecl
    case LOW => 0
    case MEDIUM => 1
    case QUARTILE => 2
    case HIGH => 3
  }

  /** The level after boosting: never weaker than requested, and the strongest that holds the data. */
  ghost predicate IsBoosted(best: Ecc, ver: int, dataUsedBits: int, ecl: Ecc, boostEcl: bool)
    requires MIN_VERSION <= ver <= MAX_VERSION
  {
    && dataUsedBits <= NumDataCodewords(ver, best) * 8
    && Rank(ecl) <= Rank(best)
    && if boostEcl then forall e :: Rank(e) > Rank(best) ==> dataUsedBits > NumDataCodewords(ver, e) * 8
       else best == ecl
  }

  /** The boosting loop of `QrCode::encodeSegments`. */
  method BoostEcl(ver: int, dataUsedBits: int, ecl: Ecc, boostEcl: bool) returns (best: Ecc)
    requires MIN_VERSION <= ver <= MAX_VERSION && dataUsedBits <= NumDataCodewords(ver, ecl) * 8
    ensures IsBoosted(best, ver, dataUsedBits, ecl, boostEcl)
  {
    var levels := [MEDIUM, QUARTILE, HIGH];
    best := ecl;
    for i := 0 to 3
      invariant dataUsedBits <= NumDataCodewords(ver, best) * 8 && (!boostEcl ==> best == ecl)
      invariant boostEcl ==> forall k :: 0 <= k < i && dataUsedBits <= NumDataCodewords(ver, levels[k]) * 8 ==>
                             k < Rank(best)
    {
      if boostEcl && dataUsedBits <= NumDataCodewords(ver, levels[i]) * 8 {
        best := levels[i];
      }
    }
    assert forall e :: Rank(e) > 0 ==> e == levels[Rank(e) - 1];
  }

  // ----- the data codewords

  method AppendSegment(bb: BitBuffer, seg: QrSegment, version: int)
    requires 1 <= version <= 40 && CountFits(seg, version)
    modifies bb
    ensures bb.bits == old(bb.bits) + SegmentBits(seg, version)
  {
    ModeFits(seg.mode);
    AppendTwo(bb, seg.mode.ModeBits(), 4, seg.numChars, seg.mode.CountBits(version));
    bb.bits := bb.bits + seg.data;
    Assoc(old(bb.bits), Header(seg, version), seg.data);
  }

  lemma {:induction false} ModeFits(mode: Mode)
    ensures mode.ModeBits() < Pow2(4)
  {
    assert Pow2(4) == 16;
  }

  /** The concatenation loop of `QrCode::encodeSegments`. */
  method AppendSegments(bb: BitBuffer, segs: seq<QrSegment>, version: int)
    requires 1 <= version <= 40 && CountsFit(segs, version) && bb.bits == []
    modifies bb
    ensures bb.bits == StreamBits(segs, version)
  {
    assert segs[0..] == segs;
    assert [] + StreamBits(segs, version) == StreamBits(segs, version);
    for i := 0 to |segs|
      invariant bb.bits + StreamBits(segs[i..], version) == StreamBits(segs, version)
    {
      StreamStep(segs, version, i);
      Assoc(bb.bits, SegmentBits(segs[i], version), StreamBits(segs[i + 1..], version));
      AppendSegment(bb, segs[i], version);
    }
    assert StreamBits(segs[|segs|..], version) == [];
  }

  /** The codewords of a stream: terminated, padded and packed. */
  function DataFor(stream: seq<bool>, codewords: nat): (data: seq<Byte>)
    requires |stream| <= 8 * codewords
    ensures |data| == codewords
  {
    PackFirst(stream + Padding(|stream|, codewords), codewords)
  }

  method PadAndPack(bb: BitBuffer, codewords: nat) returns (dataCodewords: seq<Byte>)
    requires |bb.bits| <= 8 * codewords
    modifies bb
    ensures dataCodewords == DataFor(old(bb.bits), codewords)
  {
    AddPadding(bb, codewords);
    GroupIndex(codewords, 0);
    dataCodewords := PackCodewords(bb.bits);
  }

  /** The data part of `QrCode::encodeSegments`; none of its assertions can fail. */
  method EncodeData(segs: seq<QrSegment>, version: int, codewords: nat, dataUsedBits: int)
    returns (dataCodewords: seq<Byte>)
    requires 1 <= version <= 40 && Fits(segs, version, codewords) && dataUsedBits == |StreamBits(segs, version)|
    ensures dataCodewords == DataFor(StreamBits(segs, version), codewords)
  {
    var bb := new BitBuffer();
    AppendSegments(bb, segs, version);
    assert |bb.bits| == dataUsedBits;
    dataCodewords := PadAndPack(bb, codewords);
  }

  /** Read as a bit stream, the codewords say what the segments say. */
  lemma {:induction false} DataParsed(segs: seq<QrSegment>, ps: seq<Payload>, ver: int, codewords: nat)
    requires 1 <= ver <= 40 && Fits(segs, ver, codewords)
    requires |segs| == |ps| && forall i :: 0 <= i < |segs| ==> Says(segs[i], ps[i])
    ensures Parse(CodewordBits(DataFor(StreamBits(segs, ver), codewords)), ver) == Some(ps)
  {
    var stream := StreamBits(segs, ver);
    CodewordBitsPack(stream + Padding(|stream|, codewords), codewords);
    PaddingEnds(|stream|, codewords);
    StreamParsed(segs, ps, ver, Padding(|stream|, codewords));
  }

  // ----- encodeSegments

  /** The codewords drawn for the segments. */
  ghost function SymbolCodewords(segs: seq<QrSegment>, ver: int, ecl: Ecc): seq<Byte>
    requires MIN_VERSION <= ver <= MAX_VERSION && Holds(segs, ver, ecl)
  {
    CapacityBound(ver, ecl);
    AllCodewords(ver, ecl, DataFor(StreamBits(segs, ver), NumDataCodewords(ver, ecl)))
  }

  /** Drawing the symbol, once version and level are chosen. */
  method EncodeAt(segs: seq<QrSegment>, ver: int, ecl: Ecc, dataUsedBits: int, mask: int) returns (q: QrCode)
    requires MIN_VERSION <= ver <= MAX_VERSION && Holds(segs, ver, ecl) && -1 <= mask <= 7
    requires dataUsedBits == |StreamBits(segs, ver)|
    ensures q.version == ver && q.size == SizeOf(ver) && q.errorCorrectionLevel == ecl
    ensures Depicts(q.modules, q.mask, ver, ecl, SymbolCodewords(segs, ver, ecl), mask)
  {
    CapacityBound(ver, ecl);
    var dataCodewords := EncodeData(segs, ver, NumDataCodewords(ver, ecl), dataUsedBits);
    var r := QrCode.Create(ver, ecl, dataCodewords, mask);
    q := r.value;
  }

  /** The level after boosting holds the segments too. */
  method BoostFor(segs: seq<QrSegment>, ver: int, dataUsedBits: int, ecl: Ecc, boostEcl: bool) returns (best: Ecc)
    requires MIN_VERSION <= ver <= MAX_VERSION && Holds(segs, ver, ecl) && dataUsedBits == |StreamBits(segs, ver)|
    ensures IsBoosted(best, ver, dataUsedBits, ecl, boostEcl) && Holds(segs, ver, best)
  {
    best := BoostEcl(ver, dataUsedBits, ecl, boostEcl);
  }

  /** The least version in the range that holds the segments at the requested level, and the boosted level. */
  ghost predicate IsPlan(ver: int, best: Ecc, segs: seq<QrSegment>, ecl: Ecc, minVersion: int, maxVersion: int,
                         boostEcl: bool)
    requires MIN_VERSION <= minVersion <= maxVersion <= MAX_VERSION
  {
    && minVersion <= ver <= maxVersion
    && NoneHolds(segs, ecl, minVersion, ver) && Holds(segs, ver, ecl) && Holds(segs, ver, best)
    && IsBoosted(best, ver, |StreamBits(segs, ver)|, ecl, boostEcl)
  }

  /** The choices of `QrCode::encodeSegments`. */
  method ChoosePlan(segs: seq<QrSegment>, ecl: Ecc, minVersion: int, maxVersion: int, boostEcl: bool)
    returns (found: bool, version: int, best: Ecc, dataUsedBits: int)
    requires MIN_VERSION <= minVersion <= maxVersion <= MAX_VERSION
    ensures found <==> !NoneHolds(segs, ecl, minVersion, maxVersion + 1)
    ensures found ==> IsPlan(version, best, segs, ecl, minVersion, maxVersion, boostEcl)
    ensures found ==> dataUsedBits == |StreamBits(segs, version)|
  {
    best := ecl;
    found, version, dataUsedBits := ChooseVersion(segs, ecl, minVersion, maxVersion);
    if found {
      best := BoostFor(segs, version, dataUsedBits, ecl, boostEcl);
    }
  }

  predicate ValidArguments(minVersion: int, maxVersion: int, mask: int)
  {
    MIN_VERSION <= minVersion <= maxVersion <= MAX_VERSION && -1 <= mask <= 7
  }

  /** `QrCode::encodeSegments` */
  method EncodeSegments(segs: seq<QrSegment>, ecl: Ecc, minVersion: int, maxVersion: int, mask: int, boostEcl: bool)
    returns (r: Result<QrCode>)
    ensures !ValidArguments(minVersion, maxVersion, mask) ==> r == Err(InvalidArgument)
    ensures ValidArguments(minVersion, maxVersion, mask) ==>
              if NoneHolds(segs, ecl, minVersion, maxVersion + 1) then r == Err(DataTooLong) else r.Ok?
    ensures r.Ok? ==> IsPlan(r.value.version, r.value.errorCorrectionLevel, segs, ecl, minVersion, maxVersion, boostEcl)
    ensures r.Ok? ==> Depicts(r.value.modules, r.value.mask, r.value.version, r.value.errorCorrectionLevel,
                              SymbolCodewords(segs, r.value.version, r.value.errorCorrectionLevel), mask)
  {
    if !(MIN_VERSION <= minVersion <= maxVersion <= MAX_VERSION) || mask < -1 || mask > 7 {
      return Err(InvalidArgument);
    }
    var found, version, best, dataUsedBits := ChoosePlan(segs, ecl, minVersion, maxVersion, boostEcl);
    if !found {
      return Err(DataTooLong);
    }
    var q := EncodeAt(segs, version, best, dataUsedBits, mask);
    return Ok(q);
  }

  /** End to end: a reader of the modules finds level, mask and payloads of the segments. */
  lemma {:induction false} EncodingRoundTrip(segs: seq<QrSegment>, ps: seq<Payload>, ver: int, ecl: Ecc, msk: nat)
    requires MIN_VERSION <= ver <= MAX_VERSION && Holds(segs, ver, ecl) && msk < 8
    requires |segs| == |ps| && forall i :: 0 <= i < |segs| ==> Says(segs[i], ps[i])
    ensures var reading := ReadSymbol(Symbol(ver, ecl, SymbolCodewords(segs, ver, ecl), msk), ver);
            reading.ecl == ecl && reading.mask == msk && Parse(CodewordBits(reading.data), ver) == Some(ps)
  {
    CapacityBound(ver, ecl);
    SymbolRoundTrip(ver, ecl, DataFor(StreamBits(segs, ver), NumDataCodewords(ver, ecl)), msk);
    DataParsed(segs, ps, ver, NumDataCodewords(ver, ecl));
  }

  // ----- text and binary

  /** A reader of the modules finds these payloads. */
  ghost predicate ReadsAs(m: Grid, ver: int, ps: seq<Payload>)
  {
    && MIN_VERSION <= ver <= MAX_VERSION && IsGrid(m, SizeOf(ver))
    && Parse(CodewordBits(ReadSymbol(m, ver).data), ver) == Some(ps)
  }

  lemma {:induction false} SymbolReadsAs(segs: seq<QrSegment>, ps: seq<Payload>, m: Grid, ver: int, ecl: Ecc,
                                         mask: int, msk: int)
    requires MIN_VERSION <= ver <= MAX_VERSION && Holds(segs, ver, ecl)
    requires |segs| == |ps| && forall i :: 0 <= i < |segs| ==> Says(segs[i], ps[i])
    requires Depicts(m, mask, ver, ecl, SymbolCodewords(segs, ver, ecl), msk)
    ensures ReadsAs(m, ver, ps)
  {
    EncodingRoundTrip(segs, ps, ver, ecl, mask);
  }

  /** `encodeSegments` with its default arguments. */
  method EncodeDefault(segs: seq<QrSegment>, ecl: Ecc, ghost ps: seq<Payload>) returns (r: Result<QrCode>)
    requires |segs| == |ps| && forall i :: 0 <= i < |segs| ==> Says(segs[i], ps[i])
    ensures if NoneHolds(segs, ecl, MIN_VERSION, MAX_VERSION + 1) then r == Err(DataTooLong)
            else r.Ok? && ReadsAs(r.value.modules, r.value.version, ps)
  {
    r := EncodeSegments(segs, ecl, 1, 40, -1, true);
    if r.Ok? {
      SymbolReadsAs(segs, ps, r.value.modules, r.value.version, r.value.errorCorrectionLevel, r.value.mask, -1);
    }
  }

  /** Every payload has a segment. */
  predicate CanSay(ps: seq<Payload>)
  {
    forall i :: 0 <= i < |ps| ==> ps[i].Valid()
  }

  function SegmentsOf(ps: seq<Payload>): seq<QrSegment>
    requires CanSay(ps)
  {
    seq(|ps|, i requires 0 <= i < |ps| => ps[i].Segment())
  }

  /** `QrCode::encodeBinary` */
  method EncodeBinary(data: seq<Byte>, ecl: Ecc) returns (r: Result<QrCode>)
    ensures |data| > INT_MAX ==> r == Err(LengthError)
    ensures |data| <= INT_MAX ==>
              if NoneHolds([Bytes(data).Segment()], ecl, MIN_VERSION, MAX_VERSION + 1) then r == Err(DataTooLong)
              else r.Ok? && ReadsAs(r.value.modules, r.value.version, [Bytes(data)])
  {
    var seg := MakeBytes(data);
    if seg.Err? {
      return Err(seg.error);
    }
    SegmentSays(Bytes(data));
    r := EncodeDefault([seg.value], ecl, [Bytes(data)]);
  }

  /** `QrCode::encodeText`: whatever mode was chosen, the text is read back. */
  method EncodeText(text: string, ecl: Ecc) returns (r: Result<QrCode>)
    requires IsText(text)
    ensures !CanSay(TextPayloads(text)) ==> r == Err(LengthError) && |text| > INT_MAX
    ensures CanSay(TextPayloads(text)) ==>
              if NoneHolds(SegmentsOf(TextPayloads(text)), ecl, MIN_VERSION, MAX_VERSION + 1) then r == Err(DataTooLong)
              else r.Ok? && ReadsAs(r.value.modules, r.value.version, TextPayloads(text))
  {
    var segs := MakeSegments(text);
    if segs.Err? {
      return Err(segs.error);
    }
    ghost var ps := TextPayloads(text);
    if ps != [] {
      SegmentSays(ps[0]);
    }
    assert segs.value == SegmentsOf(ps);
    r := EncodeDefault(segs.value, ecl, ps);
  }
}
