/** `BitBuffer` and the segment makers of `QrSegment`. */
module Segments {
  import opened Wrappers
  import opened Bits
  import opened Packing

  const INT_MAX := 0x7FFF_FFFF

  class BitBuffer {
    var bits: seq<bool>

    constructor ()
      ensures bits == []
    {
      bits := [];
    }

    /** `BitBuffer::appendBits`; false is the throw. */
    method AppendBits(val: nat, len: int) returns (ok: bool)
      modifies this
      ensures ok == (0 <= len <= 31 && val < Pow2(len))
      ensures bits == old(bits) + if ok then BitsOf(val, len) else []
    {
      if len >= 0 {
        ShrBound(val, len);
      }
      if len < 0 || len > 31 || Shr(val, len) != 0 {
        return false;
      }
      for i := len downto 0
        invariant bits == old(bits) + BitsOf(val, len)[..len - i]
      {
        BitsOfEntry(val, len, len - 1 - i);
        bits := bits + [GetBit(val, i)];
      }
      return true;
    }
  }

  // ----- modes and segments

  function ByVersion(ver: int, cc0: nat, cc1: nat, cc2: nat): nat
  {
    var i := (ver + 7) / 17;
    if i == 0 then cc0 else if i == 1 then cc1 else cc2
  }

  datatype Mode = NUMERIC | ALPHANUMERIC | BYTE | KANJI | ECI {
    /** `QrSegment::Mode::getModeBits` */
    function ModeBits(): (b: nat)
      ensures 0 < b < 16
    {
      match this
      case NUMERIC => 1
      case ALPHANUMERIC => 2
      case BYTE => 4
      case KANJI => 8
      case ECI => 7
    }

    /** `QrSegment::Mode::numCharCountBits` */
    function CountBits(ver: int): (b: nat)
      requires 1 <= ver <= 40
      ensures b <= 16
    {
      match this
      case NUMERIC => ByVersion(ver, 10, 12, 14)
      case ALPHANUMERIC => ByVersion(ver, 9, 11, 13)
      case BYTE => ByVersion(ver, 8, 16, 16)
      case KANJI => ByVersion(ver, 8, 10, 12)
      case ECI => 0
    }
  }

  datatype QrSegment = QrSegment(mode: Mode, numChars: nat, data: seq<bool>)

  // ----- characters

  const ALPHANUMERIC_CHARSET := "0123456789" + "ABCDEFGHIJKLMNOPQRSTUVWXYZ" + " $%*+-./:"

  /** A C string: the bytes before the terminating zero. */
  predicate IsText(s: string)
  {
    forall i :: 0 <= i < |s| ==> '\0' < s[i] && s[i] as int < 256
  }

  predicate IsDigit(c: char)
  {
    '0' <= c <= '9'
  }

  function DigitValue(c: char): nat
  {
    if IsDigit(c) then c as int - '0' as int else 0
  }

  /** `std::strchr` on a string that the character may or may not be in. */
  function FirstIndex(c: char, s: string, i: nat): (k: Option<nat>)
    requires i <= |s|
    ensures k.Some? ==> k.value < |s| && s[k.value] == c
    decreases c, |s| - i
  {
    if i == |s| then None else if s[i] == c then Some(i) else FirstIndex(c, s, i + 1)
  }

  /** Every character is in the alphabet. */
  predicate IsOver(s: string, alphabet: string)
  {
    forall i :: 0 <= i < |s| ==> FirstIndex(s[i], alphabet, 0).Some?
  }

  function Index(c: char, alphabet: string): (v: nat)
    requires alphabet != ""
    ensures v < |alphabet|
  {
    var k := FirstIndex(c, alphabet, 0);
    if k.Some? then k.value else 0
  }

  function Indices(s: string, alphabet: string): (d: seq<nat>)
    requires alphabet != ""
    ensures |d| == |s| && AreDigits(d, |alphabet|)
  {
    seq(|s|, i requires 0 <= i < |s| => Index(s[i], alphabet))
  }

  predicate IsNumericText(s: string)
  {
    forall i :: 0 <= i < |s| ==> IsDigit(s[i])
  }

  predicate IsAlphanumericText(s: string)
  {
    IsOver(s, ALPHANUMERIC_CHARSET)
  }

  function DigitValues(s: string): (d: seq<nat>)
    ensures |d| == |s| && AreDigits(d, 10)
  {
    seq(|s|, i requires 0 <= i < |s| => DigitValue(s[i]))
  }

  function BytesOf(s: string): (b: seq<Byte>)
    requires IsText(s)
    ensures |b| == |s|
  {
    seq(|s|, i requires 0 <= i < |s| => s[i] as int)
  }

  // ----- what a segment says

  datatype Payload =
    | Numeric(digits: string)
    | Alphanumeric(text: string)
    | Bytes(data: seq<Byte>)
    | Eci(assignVal: int)
  {
    predicate Valid()
    {
      match this
      case Numeric(digits) => IsNumericText(digits)
      case Alphanumeric(text) => IsAlphanumericText(text)
      case Bytes(data) => |data| <= INT_MAX
      case Eci(v) => 0 <= v < 1000000
    }

    /** The segment for a payload. */
    function Segment(): QrSegment
      requires Valid()
    {
      match this
      case Numeric(digits) => QrSegment(NUMERIC, |digits|, Packed(DigitValues(digits), DECIMAL))
      case Alphanumeric(text) => QrSegment(ALPHANUMERIC, |text|, Packed(Indices(text, ALPHANUMERIC_CHARSET), BASE45))
      case Bytes(data) => QrSegment(BYTE, |data|, CodewordBits(data))
      case Eci(v) => QrSegment(ECI, 0, EciBits(v))
    }
  }

  function EciBits(v: nat): seq<bool>
  {
    if v < Pow2(7) then BitsOf(v, 8)
    else if v < Pow2(14) then BitsOf(2, 2) + BitsOf(v, 14)
    else BitsOf(6, 3) + BitsOf(v, 21)
  }

  /** Segment of a payload, or the error for one that its maker refuses. */
  function SegmentOrError(p: Payload, e: Error): Result<QrSegment>
  {
    if p.Valid() then Ok(p.Segment()) else Err(e)
  }

  // ----- the makers

  lemma {:induction false} CodewordBitsSnoc(data: seq<Byte>, k: nat)
    requires k < |data|
    ensures CodewordBits(data[..k + 1]) == CodewordBits(data[..k]) + BitsOf(data[k], 8)
  {
    forall i | 0 <= i < 8 * k + 8
      ensures CodewordBits(data[..k + 1])[i] == (CodewordBits(data[..k]) + BitsOf(data[k], 8))[i]
    {
      if i >= 8 * k { LastCodeword(data[..k + 1], k, i - 8 * k); }
    }
  }

  lemma {:induction false} LastCodeword(data: seq<Byte>, k: nat, t: nat)
    requires k < |data| && t < 8
    ensures CodewordBits(data)[8 * k + t] == BitsOf(data[k], 8)[t]
  {
    GroupIndex(k, t);
    BitsOfEntry(data[k], 8, t);
  }

  lemma {:induction false} ByteFits(b: Byte)
    ensures b < Pow2(8)
  {
    assert Pow2(8) == 256;
  }

  /** `QrSegment::makeBytes` */
  method MakeBytes(data: seq<Byte>) returns (r: Result<QrSegment>)
    ensures r == SegmentOrError(Bytes(data), LengthError)
  {
    if |data| > INT_MAX {
      return Err(LengthError);
    }
    var bb := new BitBuffer();
    assert data[..0] == [];
    for k := 0 to |data|
      invariant bb.bits == CodewordBits(data[..k])
    {
      ByteFits(data[k]);
      CodewordBitsSnoc(data, k);
      var ok := bb.AppendBits(data[k], 8);
    }
    assert data[..|data|] == data;
    return Ok(QrSegment(BYTE, |data|, bb.bits));
  }

  /** Appending a group of digits; no group overflows its field. */
  method AppendGroup(bb: BitBuffer, c: Code, accumData: nat, accumCount: nat, ghost d: seq<nat>, ghost i: nat)
    requires c.Valid() && AreDigits(d, c.base) && HasPacked(bb.bits, c, d, i, accumData, accumCount)
    requires accumCount == c.Group() || (i == |d| && accumCount > 0)
    modifies bb
    ensures HasPacked(bb.bits, c, d, i, 0, 0)
  {
    Flush(bb.bits, c, d, i, accumData, accumCount);
    var ok := bb.AppendBits(accumData, c.widths[accumCount]);
    assert ok;
  }

  method Accumulate(ghost bits: seq<bool>, c: Code, digit: nat, accumData: nat, ghost count: nat, ghost d: seq<nat>,
                    ghost i: nat)
    returns (data: nat)
    requires |c.widths| >= 2 && i < |d| && digit == d[i]
    requires HasPacked(bits, c, d, i, accumData, count) && count < c.Group()
    ensures HasPacked(bits, c, d, i + 1, data, count + 1)
  {
    PackDigit(bits, c, d, i, accumData, count);
    data := accumData * c.base + digit;
  }

  /** The body of the accumulating loops of `makeNumeric` and `makeAlphanumeric`. */
  method PushDigit(bb: BitBuffer, c: Code, digit: nat, accumData: nat, accumCount: nat, ghost d: seq<nat>, ghost i: nat)
    returns (data: nat, count: nat)
    requires c.Valid() && AreDigits(d, c.base) && i < |d| && digit == d[i]
    requires HasPacked(bb.bits, c, d, i, accumData, accumCount) && accumCount < c.Group()
    modifies bb
    ensures HasPacked(bb.bits, c, d, i + 1, data, count) && count < c.Group()
  {
    data := Accumulate(bb.bits, c, digit, accumData, accumCount, d, i);
    count := accumCount + 1;
    if count == c.Group() {
      AppendGroup(bb, c, data, count, d, i + 1);
      data, count := 0, 0;
    }
  }

  /** The remaining digits after those loops. */
  method PushRest(bb: BitBuffer, c: Code, accumData: nat, accumCount: nat, ghost d: seq<nat>)
    requires c.Valid() && AreDigits(d, c.base) && HasPacked(bb.bits, c, d, |d|, accumData, accumCount)
    modifies bb
    ensures bb.bits == Packed(d, c)
  {
    if accumCount > 0 {
      AppendGroup(bb, c, accumData, accumCount, d, |d|);
      AllPacked(bb.bits, c, d, 0);
    } else {
      AllPacked(bb.bits, c, d, accumData);
    }
  }

  /** The loop of `QrSegment::makeNumeric`. */
  method PackDigits(bb: BitBuffer, digits: string, c: Code) returns (ok: bool)
    requires bb.bits == [] && c.Valid() && c.base == 10
    modifies bb
    ensures ok == IsNumericText(digits)
    ensures ok ==> bb.bits == Packed(DigitValues(digits), c)
  {
    var accumData: nat, accumCount: nat := 0, 0;
    ghost var d := DigitValues(digits);
    PackStart(c, d);
    for i := 0 to |digits|
      invariant forall k :: 0 <= k < i ==> IsDigit(digits[k])
      invariant HasPacked(bb.bits, c, d, i, accumData, accumCount) && accumCount < c.Group()
    {
      var ch := digits[i];
      if ch < '0' || ch > '9' {
        assert !IsDigit(digits[i]);
        return false;
      }
      accumData, accumCount := PushDigit(bb, c, ch as int - '0' as int, accumData, accumCount, d, i);
    }
    PushRest(bb, c, accumData, accumCount, d);
    return true;
  }

  /** `QrSegment::makeNumeric` */
  method MakeNumeric(digits: string) returns (r: Result<QrSegment>)
    requires IsText(digits)
    ensures r == SegmentOrError(Numeric(digits), DomainError)
  {
    var bb := new BitBuffer();
    DecimalValid();
    var ok := PackDigits(bb, digits, DECIMAL);
    if !ok {
      return Err(DomainError);
    }
    return Ok(QrSegment(NUMERIC, |digits|, bb.bits));
  }

  /** The loop of `QrSegment::makeAlphanumeric`. */
  method PackCharacters(bb: BitBuffer, text: string, c: Code, alphabet: string) returns (ok: bool)
    requires bb.bits == [] && c.Valid() && c.base == |alphabet|
    modifies bb
    ensures ok == IsOver(text, alphabet)
    ensures ok ==> bb.bits == Packed(Indices(text, alphabet), c)
  {
    var accumData: nat, accumCount: nat := 0, 0;
    ghost var d := Indices(text, alphabet);
    PackStart(c, d);
    for i := 0 to |text|
      invariant forall k :: 0 <= k < i ==> FirstIndex(text[k], alphabet, 0).Some?
      invariant HasPacked(bb.bits, c, d, i, accumData, accumCount) && accumCount < c.Group()
    {
      var temp := FirstIndex(text[i], alphabet, 0);
      if temp.None? {
        return false;
      }
      accumData, accumCount := PushDigit(bb, c, temp.value, accumData, accumCount, d, i);
    }
    PushRest(bb, c, accumData, accumCount, d);
    return true;
  }

  /** `QrSegment::makeAlphanumeric` */
  method MakeAlphanumeric(text: string) returns (r: Result<QrSegment>)
    requires IsText(text)
    ensures r == SegmentOrError(Alphanumeric(text), DomainError)
  {
    var bb := new BitBuffer();
    Base45Valid();
    var ok := PackCharacters(bb, text, BASE45, ALPHANUMERIC_CHARSET);
    if !ok {
      return Err(DomainError);
    }
    return Ok(QrSegment(ALPHANUMERIC, |text|, bb.bits));
  }

  /** Every ECI number fits its field. */
  lemma {:induction false} EciFits(v: nat)
    requires v < 1000000
    ensures v < Pow2(21) && (v < Pow2(7) ==> v < Pow2(8))
  {
    assert Pow2(10) == 1024 && Pow2(21) == 2048 * Pow2(10);
  }

  /** `QrSegment::makeEci` */
  method MakeEci(assignVal: int) returns (r: Result<QrSegment>)
    ensures r == SegmentOrError(Eci(assignVal), DomainError)
  {
    if assignVal < 0 || assignVal >= 1000000 {
      return Err(DomainError);
    }
    EciFits(assignVal);
    var bb := new BitBuffer();
    assert [] + EciBits(assignVal) == EciBits(assignVal);
    if assignVal < Pow2(7) {
      var ok := bb.AppendBits(assignVal, 8);
      assert ok;
    } else if assignVal < Pow2(14) {
      AppendTwo(bb, 2, 2, assignVal, 14);
    } else {
      AppendTwo(bb, 6, 3, assignVal, 21);
    }
    return Ok(QrSegment(ECI, 0, bb.bits));
  }

  /** Two fields in a row. */
  method AppendTwo(bb: BitBuffer, a: nat, m: nat, b: nat, n: nat)
    requires m <= 31 && n <= 31 && a < Pow2(m) && b < Pow2(n)
    modifies bb
    ensures bb.bits == old(bb.bits) + (BitsOf(a, m) + BitsOf(b, n))
  {
    var ok := bb.AppendBits(a, m);
    assert ok;
    ok := bb.AppendBits(b, n);
    assert ok;
    Assoc(old(bb.bits), BitsOf(a, m), BitsOf(b, n));
  }

  /** `QrSegment::isNumeric` */
  method IsNumeric(text: string) returns (b: bool)
    ensures b == IsNumericText(text)
  {
    for i := 0 to |text|
      invariant IsNumericText(text[..i])
    {
      if text[i] < '0' || text[i] > '9' {
        assert !IsDigit(text[i]);
        return false;
      }
    }
    assert text[..|text|] == text;
    return true;
  }

  /** `QrSegment::isAlphanumeric` */
  method IsAlphanumeric(text: string) returns (b: bool)
    ensures b == IsAlphanumericText(text)
  {
    for i := 0 to |text|
      invariant IsAlphanumericText(text[..i])
    {
      if FirstIndex(text[i], ALPHANUMERIC_CHARSET, 0).None? {
        return false;
      }
    }
    assert text[..|text|] == text;
    return true;
  }

  /** The payloads of `QrSegment::makeSegments`: the most compact mode that can say the whole text. */
  function TextPayloads(text: string): (ps: seq<Payload>)
    requires IsText(text)
  {
    if text == "" then []
    else if IsNumericText(text) then [Numeric(text)]
    else if IsAlphanumericText(text) then [Alphanumeric(text)]
    else [Bytes(BytesOf(text))]
  }

  /** `QrSegment::makeSegments` */
  method MakeSegments(text: string) returns (r: Result<seq<QrSegment>>)
    requires IsText(text)
    ensures var ps := TextPayloads(text);
            r == if ps == [] then Ok([]) else if ps[0].Valid() then Ok([ps[0].Segment()]) else Err(LengthError)
  {
    if text == "" {
      return Ok([]);
    }
    var numeric := IsNumeric(text);
    var alphanumeric := IsAlphanumeric(text);
    var seg;
    if numeric {
      seg := MakeNumeric(text);
    } else if alphanumeric {
      seg := MakeAlphanumeric(text);
    } else {
      var bytes: seq<Byte> := [];
      for i := 0 to |text|
        invariant bytes == BytesOf(text)[..i]
      {
        bytes := bytes + [text[i] as int];
      }
      assert bytes == BytesOf(text);
      seg := MakeBytes(bytes);
    }
    if seg.Err? {
      return Err(seg.error);
    }
    return Ok([seg.value]);
  }
}
