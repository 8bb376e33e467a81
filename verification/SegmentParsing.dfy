/** The bit stream of a list of segments, and a reader that takes it apart. */
module SegmentParsing {
  import opened Wrappers
  import opened Bits
  import opened Packing
  import opened Segments

  // ----- the stream

  /** Mode and character count. */
  function Header(seg: QrSegment, ver: int): (bits: seq<bool>)
    requires 1 <= ver <= 40
    ensures |bits| == 4 + seg.mode.CountBits(ver)
  {
    BitsOf(seg.mode.ModeBits(), 4) + BitsOf(seg.numChars, seg.mode.CountBits(ver))
  }

  /** Header and data. */
  function SegmentBits(seg: QrSegment, ver: int): (bits: seq<bool>)
    requires 1 <= ver <= 40
    ensures |bits| == 4 + seg.mode.CountBits(ver) + |seg.data|
  {
    Header(seg, ver) + seg.data
  }

  function StreamBits(segs: seq<QrSegment>, ver: int): seq<bool>
    requires 1 <= ver <= 40
  {
    if segs == [] then [] else SegmentBits(segs[0], ver) + StreamBits(segs[1..], ver)
  }

  // ----- the reader

  function DigitText(d: seq<nat>): (s: string)
  {
    seq(|d|, i requires 0 <= i < |d| => if d[i] < 10 then ('0' as int + d[i]) as char else '0')
  }

  function CharText(d: seq<nat>, alphabet: string): (s: string)
  {
    seq(|d|, i requires 0 <= i < |d| => if d[i] < |alphabet| then alphabet[d[i]] else '0')
  }

  function ModeOf(b: nat): Option<Mode>
  {
    if b == 1 then Some(NUMERIC) else if b == 2 then Some(ALPHANUMERIC) else if b == 4 then Some(BYTE)
    else if b == 7 then Some(ECI) else None
  }

  /** How many bits `n` characters take. */
  function BodyLength(mode: Mode, n: nat): nat
  {
    match mode
    case NUMERIC => PackedLength(n, DECIMAL)
    case ALPHANUMERIC => PackedLength(n, BASE45)
    case _ => 8 * n
  }

  function BodyPayload(mode: Mode, n: nat, bits: seq<bool>): Payload
    requires |bits| == BodyLength(mode, n)
  {
    match mode
    case NUMERIC => Numeric(DigitText(Unpacked(bits, n, DECIMAL)))
    case ALPHANUMERIC => Alphanumeric(CharText(Unpacked(bits, n, BASE45), ALPHANUMERIC_CHARSET))
    case _ => Bytes(PackFirst(bits, n))
  }

  /** An ECI number of one, two or three bytes, told apart by the leading ones. */
  function ParseEci(bits: seq<bool>): (r: Option<(Payload, nat)>)
    ensures r.Some? ==> r.value.1 <= |bits|
  {
    if |bits| < 8 then None
    else if !bits[0] then Some((Eci(ValueOf(bits[..8])), 8))
    else if |bits| < 16 then None
    else if !bits[1] then Some((Eci(ValueOf(bits[2..16])), 16))
    else if |bits| < 24 then None
    else Some((Eci(ValueOf(bits[3..24])), 24))
  }

  /** The payload after mode and count, and how many bits it took. */
  function ParseBody(mode: Mode, n: nat, bits: seq<bool>): (r: Option<(Payload, nat)>)
    ensures r.Some? ==> r.value.1 <= |bits|
  {
    if mode == ECI then ParseEci(bits)
    else if |bits| < BodyLength(mode, n) then None
    else Some((BodyPayload(mode, n, bits[..BodyLength(mode, n)]), BodyLength(mode, n)))
  }

  /** Mode, character count and where the data begins. */
  function ParseHeader(bits: seq<bool>, ver: int): (r: Option<(Mode, nat, nat)>)
    requires 1 <= ver <= 40 && |bits| >= 4
    ensures r.Some? ==> 4 <= r.value.2 <= |bits|
  {
    match ModeOf(ValueOf(bits[..4]))
    case None => None
    case Some(mode) =>
      var start := 4 + mode.CountBits(ver);
      if |bits| < start then None else Some((mode, ValueOf(bits[4..start]), start))
  }

  function ParseSegment(bits: seq<bool>, ver: int): (r: Option<(Payload, nat)>)
    requires 1 <= ver <= 40 && |bits| >= 4
    ensures r.Some? ==> 4 <= r.value.1 <= |bits|
  {
    match ParseHeader(bits, ver)
    case None => None
    case Some((mode, n, start)) =>
      match ParseBody(mode, n, bits[start..])
      case None => None
      case Some((p, k)) => Some((p, start + k))
  }

  /** All payloads up to mode 0 or the last three bits. */
  function Parse(bits: seq<bool>, ver: int): Option<seq<Payload>>
    requires 1 <= ver <= 40
    decreases |bits|
  {
    if |bits| < 4 || ValueOf(bits[..4]) == 0 then Some([]) else
      match ParseSegment(bits, ver)
      case None => None
      case Some((p, k)) =>
        match Parse(bits[k..], ver)
        case None => None
        case Some(ps) => Some([p] + ps)
  }

  // ----- the reader undoes the makers

  lemma {:induction false} DigitTextInverts(s: string)
    requires IsNumericText(s)
    ensures DigitText(DigitValues(s)) == s
  {
  }

  lemma {:induction false} CharTextInverts(s: string, alphabet: string)
    requires alphabet != "" && IsOver(s, alphabet)
    ensures CharText(Indices(s, alphabet), alphabet) == s
  {
  }

  lemma {:induction false} EciShort(v: nat, rest: seq<bool>)
    requires v < Pow2(7)
    ensures ParseEci(BitsOf(v, 8) + rest) == Some((Eci(v), 8))
  {
    ShrBound(v, 7);
    BitsOfEntry(v, 8, 0);
    Split(BitsOf(v, 8), rest);
    ValueOfBitsOf(v, 8);
  }

  lemma {:induction false} EciMiddle(v: nat, rest: seq<bool>)
    requires v < Pow2(14)
    ensures ParseEci(BitsOf(2, 2) + BitsOf(v, 14) + rest) == Some((Eci(v), 16))
  {
    assert BitsOf(2, 2) == [true, false];
    assert (BitsOf(2, 2) + BitsOf(v, 14) + rest)[2..16] == BitsOf(v, 14);
    ValueOfBitsOf(v, 14);
  }

  lemma {:induction false} EciLong(v: nat, rest: seq<bool>)
    requires v < Pow2(21)
    ensures ParseEci(BitsOf(6, 3) + BitsOf(v, 21) + rest) == Some((Eci(v), 24))
  {
    assert BitsOf(6, 3) == [true, true, false];
    assert (BitsOf(6, 3) + BitsOf(v, 21) + rest)[3..24] == BitsOf(v, 21);
    ValueOfBitsOf(v, 21);
  }

  lemma {:induction false} EciParsed(v: nat, rest: seq<bool>)
    requires v < 1000000
    ensures ParseEci(EciBits(v) + rest) == Some((Eci(v), |EciBits(v)|))
  {
    EciFits(v);
    if v < Pow2(7) {
      EciShort(v, rest);
    } else if v < Pow2(14) {
      EciMiddle(v, rest);
    } else {
      EciLong(v, rest);
    }
  }

  lemma {:induction false} NumericParsed(digits: string)
    requires IsNumericText(digits)
    ensures var bits := Packed(DigitValues(digits), DECIMAL);
            |bits| == BodyLength(NUMERIC, |digits|) && BodyPayload(NUMERIC, |digits|, bits) == Numeric(digits)
  {
    DecimalValid();
    UnpackPacked(DigitValues(digits), DECIMAL);
    DigitTextInverts(digits);
  }

  lemma {:induction false} AlphanumericParsed(text: string)
    requires IsAlphanumericText(text)
    ensures var bits := Packed(Indices(text, ALPHANUMERIC_CHARSET), BASE45);
            |bits| == BodyLength(ALPHANUMERIC, |text|) && BodyPayload(ALPHANUMERIC, |text|, bits) == Alphanumeric(text)
  {
    Base45Valid();
    UnpackPacked(Indices(text, ALPHANUMERIC_CHARSET), BASE45);
    CharTextInverts(text, ALPHANUMERIC_CHARSET);
  }

  lemma {:induction false} BodyParsed(p: Payload, rest: seq<bool>)
    requires p.Valid()
    ensures var seg := p.Segment(); ParseBody(seg.mode, seg.numChars, seg.data + rest) == Some((p, |seg.data|))
  {
    var seg := p.Segment();
    Split(seg.data, rest);
    match p {
      case Numeric(digits) => NumericParsed(digits);
      case Alphanumeric(text) => AlphanumericParsed(text);
      case Bytes(data) => PackCodewordBits(seg.data, data);
      case Eci(v) => EciParsed(v, rest);
    }
  }

  /** Whatever follows it, the segment is read as the payload. */
  ghost predicate Says(seg: QrSegment, p: Payload)
  {
    && ModeOf(seg.mode.ModeBits()) == Some(seg.mode)
    && forall rest :: ParseBody(seg.mode, seg.numChars, seg.data + rest) == Some((p, |seg.data|))
  }

  /** Every segment made says what it was made from. */
  lemma {:induction false} SegmentSays(p: Payload)
    requires p.Valid()
    ensures Says(p.Segment(), p)
  {
    var seg := p.Segment();
    forall rest: seq<bool>
      ensures ParseBody(seg.mode, seg.numChars, seg.data + rest) == Some((p, |seg.data|))
    {
      BodyParsed(p, rest);
    }
  }

  /** The character count fits its field. */
  predicate CountFits(seg: QrSegment, ver: int)
    requires 1 <= ver <= 40
  {
    seg.numChars < Pow2(seg.mode.CountBits(ver))
  }

  lemma {:induction false} FieldsRead(m: nat, n: nat, cc: nat, body: seq<bool>)
    requires m < 16 && n < Pow2(cc)
    ensures var bits := BitsOf(m, 4) + BitsOf(n, cc) + body;
            ValueOf(bits[..4]) == m && ValueOf(bits[4..4 + cc]) == n && bits[4 + cc..] == body
  {
    var bits := BitsOf(m, 4) + BitsOf(n, cc) + body;
    assert bits[..4] == BitsOf(m, 4) && bits[4..4 + cc] == BitsOf(n, cc) && bits[4 + cc..] == body;
    assert Pow2(4) == 16;
    ValueOfBitsOf(m, 4);
    ValueOfBitsOf(n, cc);
  }

  lemma {:induction false} HeaderParsed(seg: QrSegment, ver: int, body: seq<bool>, header: seq<bool>)
    requires 1 <= ver <= 40 && CountFits(seg, ver) && ModeOf(seg.mode.ModeBits()) == Some(seg.mode)
    requires header == Header(seg, ver)
    ensures ParseHeader(header + body, ver) == Some((seg.mode, seg.numChars, |header|))
    ensures ValueOf((header + body)[..4]) != 0 && (header + body)[|header|..] == body
  {
    FieldsRead(seg.mode.ModeBits(), seg.numChars, seg.mode.CountBits(ver), body);
  }

  lemma {:induction false} PartsParsed(bits: seq<bool>, ver: int, mode: Mode, n: nat, start: nat, p: Payload, k: nat)
    requires 1 <= ver <= 40 && |bits| >= 4 && start <= |bits|
    requires ParseHeader(bits, ver) == Some((mode, n, start)) && ParseBody(mode, n, bits[start..]) == Some((p, k))
    ensures ParseSegment(bits, ver) == Some((p, start + k))
  {
  }

  lemma {:induction false} SegmentParsed(seg: QrSegment, p: Payload, ver: int, rest: seq<bool>)
    requires 1 <= ver <= 40 && CountFits(seg, ver) && ModeOf(seg.mode.ModeBits()) == Some(seg.mode)
    requires ParseBody(seg.mode, seg.numChars, seg.data + rest) == Some((p, |seg.data|))
    ensures var bits := SegmentBits(seg, ver);
            ValueOf((bits + rest)[..4]) != 0 && ParseSegment(bits + rest, ver) == Some((p, |bits|))
  {
    var header := Header(seg, ver);
    Assoc(header, seg.data, rest);
    HeaderParsed(seg, ver, seg.data + rest, header);
    PartsParsed(header + (seg.data + rest), ver, seg.mode, seg.numChars, |header|, p, |seg.data|);
  }

  /** Nothing more to read: fewer than four bits, or a terminator. */
  predicate Ends(tail: seq<bool>)
  {
    |tail| < 4 || ValueOf(tail[..4]) == 0
  }

  lemma {:induction false} ParseStep(first: seq<bool>, rest: seq<bool>, ver: int, p: Payload, ps: seq<Payload>)
    requires 1 <= ver <= 40 && |first| >= 4 && ValueOf((first + rest)[..4]) != 0
    requires ParseSegment(first + rest, ver) == Some((p, |first|)) && Parse(rest, ver) == Some(ps)
    ensures Parse(first + rest, ver) == Some([p] + ps)
  {
    Split(first, rest);
  }

  /** Whatever padding follows the end, the payloads are read back. */
  lemma {:induction false} StreamParsed(segs: seq<QrSegment>, ps: seq<Payload>, ver: int, tail: seq<bool>)
    requires 1 <= ver <= 40 && Ends(tail) && |segs| == |ps|
    requires forall i :: 0 <= i < |segs| ==> Says(segs[i], ps[i]) && CountFits(segs[i], ver)
    ensures Parse(StreamBits(segs, ver) + tail, ver) == Some(ps)
  {
    if segs == [] {
      assert StreamBits(segs, ver) + tail == tail;
    } else {
      var first, rest := SegmentBits(segs[0], ver), StreamBits(segs[1..], ver) + tail;
      Assoc(first, StreamBits(segs[1..], ver), tail);
      SegmentParsed(segs[0], ps[0], ver, rest);
      StreamParsed(segs[1..], ps[1..], ver, tail);
      ParseStep(first, rest, ver, ps[0], ps[1..]);
      assert ps == [ps[0]] + ps[1..];
    }
  }
}
