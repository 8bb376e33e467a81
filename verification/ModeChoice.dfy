/** The mode that `QrSegment::makeSegments` chooses for a text takes the fewest bits. */
module ModeChoice {
  import opened Packing
  import opened Segments
  import opened SegmentParsing

  /** Bits of a segment with `n` characters. */
  function SegmentLength(mode: Mode, n: nat, ver: int): nat
    requires 1 <= ver <= 40
  {
    4 + mode.CountBits(ver) + BodyLength(mode, n)
  }

  lemma {:induction false} ModesByLength(n: nat, ver: int)
    requires 1 <= ver <= 40 && n > 0
    ensures SegmentLength(NUMERIC, n, ver) < SegmentLength(ALPHANUMERIC, n, ver) < SegmentLength(BYTE, n, ver)
  {
    DecimalLength(n);
    Base45Length(n);
  }

  lemma {:induction false} TextSegmentLength(p: Payload, ver: int)
    requires 1 <= ver <= 40 && p.Valid() && !p.Eci?
    ensures var seg := p.Segment(); |SegmentBits(seg, ver)| == SegmentLength(seg.mode, seg.numChars, ver)
  {
    match p {
      case Numeric(digits) => PackedHasLength(DigitValues(digits), DECIMAL);
      case Alphanumeric(text) => PackedHasLength(Indices(text, ALPHANUMERIC_CHARSET), BASE45);
      case Bytes(data) =>
    }
  }

  /** Of all segments that say a text, `QrSegment::makeSegments` chooses the one that takes the fewest bits, header
      included; any other takes more. */
  lemma {:induction false} ChosenIsShortest(text: string, p: Payload, ver: int)
    requires IsText(text) && text != "" && 1 <= ver <= 40 && p.Valid()
    requires p == Numeric(text) || p == Alphanumeric(text) || p == Bytes(BytesOf(text))
    ensures var chosen := TextPayloads(text)[0];
            chosen.Valid() &&
            (p == chosen || |SegmentBits(chosen.Segment(), ver)| < |SegmentBits(p.Segment(), ver)|)
  {
    ModesByLength(|text|, ver);
    TextSegmentLength(p, ver);
    TextSegmentLength(TextPayloads(text)[0], ver);
  }

  /** Widths of the character count fields (table 3 of ISO/IEC 18004), which change at versions 10 and 27. */
  lemma {:induction false} CountFields(ver: int)
    requires 1 <= ver <= 40
    ensures NUMERIC.CountBits(ver) == if ver < 10 then 10 else if ver < 27 then 12 else 14
    ensures ALPHANUMERIC.CountBits(ver) == if ver < 10 then 9 else if ver < 27 then 11 else 13
    ensures BYTE.CountBits(ver) == if ver < 10 then 8 else 16
    ensures ECI.CountBits(ver) == 0
  {
  }
}
