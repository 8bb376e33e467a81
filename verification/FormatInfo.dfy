/** The 15-bit format word and the 18-bit version word (sections 7.9 and 7.10 of ISO/IEC 18004). */
module FormatInfo {
  import opened Bits
  import opened Gf256
  import opened Versions

  const FORMAT_GENERATOR := 0x537
  const FORMAT_MASK := 0x5412
  const VERSION_GENERATOR := 0x1F25

  /** The remainder register after `i` shifts, for a generator of degree `n`. */
  function Bch(data: nat, n: nat, g: nat, i: nat): nat
    requires n >= 1
  {
    if i == 0 then data else
      var rem := Bch(data, n, g, i - 1);
      Xor(2 * rem, Select(Shr(rem, n - 1) == 1, g))
  }

  /** The quotient bits shifted out meanwhile. */
  function BchQuotient(data: nat, n: nat, g: nat, i: nat): nat
    requires n >= 1
  {
    if i == 0 then 0 else 2 * BchQuotient(data, n, g, i - 1) + Shr(Bch(data, n, g, i - 1), n - 1)
  }

  lemma {:induction false} BchBound(data: nat, n: nat, g: nat, i: nat)
    requires n >= 1 && data < Pow2(n) && Shr(g, n) == 1
    ensures Bch(data, n, g, i) < Pow2(n)
  {
    if i > 0 {
      BchBound(data, n, g, i - 1);
      ReduceBound(Bch(data, n, g, i - 1), g, n);
    }
  }

  /** The register is the remainder of data * x^i by the generator, over GF(2). */
  lemma {:induction false} BchIsRemainder(data: nat, n: nat, g: nat, i: nat)
    requires n >= 1 && data < Pow2(n) && Shr(g, n) == 1
    ensures Shl(data, i) == Xor(ClMul(g, BchQuotient(data, n, g, i)), Bch(data, n, g, i))
  {
    if i > 0 {
      var q, rem := BchQuotient(data, n, g, i - 1), Bch(data, n, g, i - 1);
      var c, t := ClMul(g, q), Shr(rem, n - 1);
      var m := Select(t == 1, g);
      calc {
        Shl(data, i);
        2 * Shl(data, i - 1);
        { BchIsRemainder(data, n, g, i - 1); }
        2 * Xor(c, rem);
        { ShiftReduced(c, rem, m); }
        Xor(Xor(2 * c, m), Xor(2 * rem, m));
        { BchBound(data, n, g, i - 1); ReduceBound(rem, g, n); ClMulAppend(g, q, t); }
        Xor(ClMul(g, BchQuotient(data, n, g, i)), Bch(data, n, g, i));
      }
    }
  }

  lemma {:induction false} ClMulAppend(g: nat, q: nat, t: nat)
    requires t <= 1
    ensures ClMul(g, 2 * q + t) == Xor(2 * ClMul(g, q), Select(t == 1, g))
  {
    var y := 2 * q + t;
    assert y / 2 == q && y % 2 == t;
    ClMulStep(g, y);
  }

  lemma {:induction false} ShiftReduced(c: nat, rem: nat, m: nat)
    ensures 2 * Xor(c, rem) == Xor(Xor(2 * c, m), Xor(2 * rem, m))
  {
    XorSwap(2 * c, m, 2 * rem, m);
    XorSelf(m);
    XorDouble(c, rem);
  }

  /** Data bits followed by the check bits. */
  function Code(data: nat, n: nat, g: nat): nat
    requires n >= 1
  {
    Shl(data, n) + Bch(data, n, g, n)
  }

  lemma {:induction false} CodeData(data: nat, n: nat, g: nat)
    requires n >= 1 && data < Pow2(n) && Shr(g, n) == 1
    ensures Shr(Code(data, n, g), n) == data
  {
    BchBound(data, n, g, n);
    ShrShl(data, Bch(data, n, g, n), n);
  }

  /** The word is a multiple of the generator polynomial. */
  lemma {:induction false} CodeIsMultiple(data: nat, n: nat, g: nat)
    requires n >= 1 && data < Pow2(n) && Shr(g, n) == 1
    ensures Code(data, n, g) == ClMul(g, BchQuotient(data, n, g, n))
  {
    var rem, c := Bch(data, n, g, n), ClMul(g, BchQuotient(data, n, g, n));
    BchBound(data, n, g, n);
    BchIsRemainder(data, n, g, n);
    XorDisjoint(data, rem, n);
    XorAssoc(c, rem, rem);
    XorSelf(rem);
  }

  lemma {:induction false} ShrTwice(x: nat, a: nat, b: nat)
    ensures Shr(x, a + b) == Shr(Shr(x, a), b)
    decreases a
  {
    if a > 0 { ShrTwice(x / 2, a - 1, b); }
  }

  lemma {:induction false} CodeBound(data: nat, n: nat, g: nat, k: nat)
    requires n >= 1 && data < Pow2(n) && Shr(g, n) == 1 && data < Pow2(k)
    ensures Code(data, n, g) < Pow2(n + k)
  {
    CodeData(data, n, g);
    ShrTwice(Code(data, n, g), n, k);
    ShrBound(data, k);
    ShrBound(Code(data, n, g), n + k);
  }

  lemma {:induction false} UnmaskWord(code: nat, mask: nat)
    ensures Xor(Xor(code, mask), mask) == code
  {
    XorAssoc(code, mask, mask);
    XorSelf(mask);
  }

  // ----- format information

  /** `QrCode::getFormatBits` */
  function EccBits(ecl: Ecc): nat
  {
    match ecl
    case LOW => 1
    case MEDIUM => 0
    case QUARTILE => 3
    case HIGH => 2
  }

  function EccOfBits(b: nat): Ecc
  {
    if b == 1 then LOW else if b == 0 then MEDIUM else if b == 3 then QUARTILE else HIGH
  }

  function FormatData(ecl: Ecc, msk: nat): nat
  {
    EccBits(ecl) * 8 + msk
  }

  lemma {:induction false} FormatParameters(ecl: Ecc, msk: nat)
    requires msk < 8
    ensures FormatData(ecl, msk) < Pow2(5) && FormatData(ecl, msk) < Pow2(10)
    ensures Shr(FORMAT_GENERATOR, 10) == 1
    ensures EccOfBits(FormatData(ecl, msk) / 8) == ecl && FormatData(ecl, msk) % 8 == msk
  {
    assert Pow2(5) == 32 && Pow2(10) == 1024 && Shl(1, 10) == 1024;
    ShrShl(1, FORMAT_GENERATOR - 1024, 10);
  }

  /** The format word: five data bits and ten check bits, masked. */
  function FormatWord(ecl: Ecc, msk: nat): nat
  {
    Xor(Code(FormatData(ecl, msk), 10, FORMAT_GENERATOR), FORMAT_MASK)
  }

  /** The reader: error correction level and mask of a format word. */
  function ReadFormatWord(word: nat): (Ecc, nat)
  {
    var data := Shr(Xor(word, FORMAT_MASK), 10);
    (EccOfBits(data / 8), data % 8)
  }

  lemma {:induction false} FormatMaskBound()
    ensures FORMAT_MASK < Pow2(15)
  {
    assert Pow2(15) == 32768;
  }

  lemma {:induction false} FormatCodeBound(data: nat, n: nat, g: nat, k: nat)
    requires n == 10 && k == 5 && g == FORMAT_GENERATOR && data < Pow2(k)
    ensures Code(data, n, g) < Pow2(n + k)
  {
    assert Pow2(5) == 32 && Pow2(10) == 1024;
    ShrShl(1, FORMAT_GENERATOR - 1024, 10);
    CodeBound(data, n, g, k);
  }

  lemma {:induction false} MaskedFormatBound(data: nat, n: nat, g: nat, k: nat, mask: nat, len: nat)
    requires n == 10 && k == 5 && g == FORMAT_GENERATOR && data < Pow2(k) && len == n + k && mask < Pow2(len)
    ensures Xor(Code(data, n, g), mask) < Pow2(len)
  {
    FormatCodeBound(data, n, g, k);
    XorBound(Code(data, n, g), mask, len);
  }

  lemma {:induction false} FormatDataBound(ecl: Ecc, msk: nat, k: nat)
    requires msk < 8 && k == 5
    ensures FormatData(ecl, msk) < Pow2(k)
  {
    assert Pow2(5) == 32;
  }

  lemma {:induction false} FormatWordBound(ecl: Ecc, msk: nat)
    requires msk < 8
    ensures FormatWord(ecl, msk) < Pow2(15)
  {
    FormatDataBound(ecl, msk, 5);
    FormatMaskBound();
    MaskedFormatBound(FormatData(ecl, msk), 10, FORMAT_GENERATOR, 5, FORMAT_MASK, 15);
  }

  /** The format word determines level and mask; unmasked it is a multiple of its generator. */
  lemma {:induction false} FormatWordReadable(ecl: Ecc, msk: nat)
    requires msk < 8
    ensures ReadFormatWord(FormatWord(ecl, msk)) == (ecl, msk)
    ensures exists q: nat :: Xor(FormatWord(ecl, msk), 0x5412) == ClMul(0x537, q)
  {
    FormatParameters(ecl, msk);
    var data := FormatData(ecl, msk);
    UnmaskWord(Code(data, 10, FORMAT_GENERATOR), FORMAT_MASK);
    CodeData(data, 10, FORMAT_GENERATOR);
    CodeIsMultiple(data, 10, FORMAT_GENERATOR);
  }

  // ----- version information

  function VersionWord(ver: nat): nat
  {
    Code(ver, 12, VERSION_GENERATOR)
  }

  lemma {:induction false} VersionParameters(ver: nat)
    requires ver <= MAX_VERSION
    ensures ver < Pow2(6) && ver < Pow2(12) && Shr(VERSION_GENERATOR, 12) == 1
  {
    assert Pow2(6) == 64 && Pow2(12) == 4096 && Shl(1, 12) == 4096;
    ShrShl(1, VERSION_GENERATOR - 4096, 12);
  }

  lemma {:induction false} VersionWordBound(ver: nat, len: nat)
    requires ver <= MAX_VERSION && len == 18
    ensures VersionWord(ver) < Pow2(len)
  {
    VersionParameters(ver);
    CodeBound(ver, 12, VERSION_GENERATOR, 6);
  }

  /** The version word holds the version and is a multiple of its generator. */
  lemma {:induction false} VersionWordReadable(ver: nat)
    requires ver <= MAX_VERSION
    ensures Shr(VersionWord(ver), 12) == ver
    ensures exists q: nat :: VersionWord(ver) == ClMul(0x1F25, q)
  {
    VersionParameters(ver);
    CodeData(ver, 12, VERSION_GENERATOR);
    CodeIsMultiple(ver, 12, VERSION_GENERATOR);
  }

  // ----- the words as computed

  method ComputeBch(data: nat, n: nat, g: nat) returns (rem: nat)
    requires n >= 1 && data < Pow2(n) && Shr(g, n) == 1
    ensures rem == Bch(data, n, g, n)
  {
    rem := data;
    for i := 0 to n
      invariant rem == Bch(data, n, g, i)
    {
      BchBound(data, n, g, i);
      ReduceBound(rem, g, n);
      rem := Xor(2 * rem, Shr(rem, n - 1) * g);
    }
  }

  /** The word of `QrCode::drawFormatBits`; its range check never fails. */
  method FormatBits(ecl: Ecc, msk: nat) returns (bits: nat)
    requires msk < 8
    ensures bits == FormatWord(ecl, msk) && Shr(bits, 15) == 0
  {
    var data := FormatData(ecl, msk);
    FormatParameters(ecl, msk);
    var rem := ComputeBch(data, 10, FORMAT_GENERATOR);
    BchBound(data, 10, FORMAT_GENERATOR, 10);
    OrDisjoint(data, rem, 10);
    var code := Or(Shl(data, 10), rem);
    bits := Xor(code, FORMAT_MASK);
    assert code == Code(data, 10, FORMAT_GENERATOR);
    FormatWordBound(ecl, msk);
    ShrBound(bits, 15);
  }

  /** The word of `QrCode::drawVersion`; its range check never fails. */
  method VersionBits(ver: nat) returns (bits: nat)
    requires ver <= MAX_VERSION
    ensures bits == VersionWord(ver) && Shr(bits, 18) == 0
  {
    VersionParameters(ver);
    var rem := ComputeBch(ver, 12, VERSION_GENERATOR);
    BchBound(ver, 12, VERSION_GENERATOR, 12);
    OrDisjoint(ver, rem, 12);
    bits := Or(Shl(ver, 12), rem);
    CodeBound(ver, 12, VERSION_GENERATOR, 6);
    ShrBound(bits, 18);
  }
}
