/** Version and error correction parameters of a symbol. */
module Versions {

  datatype Ecc = LOW | MEDIUM | QUARTILE | HIGH

  const MIN_VERSION := 1
  const MAX_VERSION := 40

  /** `ECC_CODEWORDS_PER_BLOCK` */
  function EccCodewordsPerBlock(ecl: Ecc, ver: int): nat
    requires MIN_VERSION <= ver <= MAX_VERSION
  {
    match ecl
    case LOW =>
      if ver <= 1 then 7 else if ver <= 2 then 10 else if ver <= 3 then 15 else if ver <= 4 then 20 else
      if ver <= 5 then 26 else if ver <= 6 then 18 else if ver <= 7 then 20 else if ver <= 8 then 24 else
      if ver <= 9 then 30 else if ver <= 10 then 18 else if ver <= 11 then 20 else if ver <= 12 then 24 else
      if ver <= 13 then 26 else if ver <= 14 then 30 else if ver <= 15 then 22 else if ver <= 16 then 24 else
      if ver <= 17 then 28 else if ver <= 18 then 30 else if ver <= 22 then 28 else if ver <= 24 then 30 else
      if ver <= 25 then 26 else if ver <= 26 then 28 else 30
    case MEDIUM =>
      if ver <= 1 then 10 else if ver <= 2 then 16 else if ver <= 3 then 26 else if ver <= 4 then 18 else
      if ver <= 5 then 24 else if ver <= 6 then 16 else if ver <= 7 then 18 else if ver <= 9 then 22 else
      if ver <= 10 then 26 else if ver <= 11 then 30 else if ver <= 13 then 22 else if ver <= 15 then 24 else
      if ver <= 17 then 28 else if ver <= 21 then 26 else 28
    case QUARTILE =>
      if ver <= 1 then 13 else if ver <= 2 then 22 else if ver <= 3 then 18 else if ver <= 4 then 26 else
      if ver <= 5 then 18 else if ver <= 6 then 24 else if ver <= 7 then 18 else if ver <= 8 then 22 else
      if ver <= 9 then 20 else if ver <= 10 then 24 else if ver <= 11 then 28 else if ver <= 12 then 26 else
      if ver <= 13 then 24 else if ver <= 14 then 20 else if ver <= 15 then 30 else if ver <= 16 then 24 else
      if ver <= 18 then 28 else if ver <= 19 then 26 else if ver <= 20 then 30 else if ver <= 21 then 28 else
      if ver <= 25 then 30 else if ver <= 26 then 28 else 30
    case HIGH =>
      if ver <= 1 then 17 else if ver <= 2 then 28 else if ver <= 3 then 22 else if ver <= 4 then 16 else
      if ver <= 5 then 22 else if ver <= 6 then 28 else if ver <= 8 then 26 else if ver <= 9 then 24 else
      if ver <= 10 then 28 else if ver <= 11 then 24 else if ver <= 12 then 28 else if ver <= 13 then 22 else
      if ver <= 15 then 24 else if ver <= 16 then 30 else if ver <= 18 then 28 else if ver <= 19 then 26 else
      if ver <= 20 then 28 else if ver <= 21 then 30 else if ver <= 22 then 24 else 30
  }

  /** `NUM_ERROR_CORRECTION_BLOCKS` */
  function NumErrorCorrectionBlocks(ecl: Ecc, ver: int): nat
    requires MIN_VERSION <= ver <= MAX_VERSION
  {
    match ecl
    case LOW =>
      if ver <= 5 then 1 else if ver <= 9 then 2 else if ver <= 14 then 4 else if ver <= 18 then 6 else
      if ver <= 19 then 7 else if ver <= 21 then 8 else if ver <= 23 then 9 else if ver <= 24 then 10 else
      if ver <= 27 then 12 else if ver <= 28 then 13 else if ver <= 29 then 14 else if ver <= 30 then 15 else
      if ver <= 31 then 16 else if ver <= 32 then 17 else if ver <= 33 then 18 else if ver <= 35 then 19 else
      if ver <= 36 then 20 else if ver <= 37 then 21 else if ver <= 38 then 22 else if ver <= 39 then 24 else 25
    case MEDIUM =>
      if ver <= 3 then 1 else if ver <= 5 then 2 else if ver <= 8 then 4 else if ver <= 11 then 5 else
      if ver <= 12 then 8 else if ver <= 14 then 9 else if ver <= 16 then 10 else if ver <= 17 then 11 else
      if ver <= 18 then 13 else if ver <= 19 then 14 else if ver <= 20 then 16 else if ver <= 22 then 17 else
      if ver <= 23 then 18 else if ver <= 24 then 20 else if ver <= 25 then 21 else if ver <= 26 then 23 else
      if ver <= 27 then 25 else if ver <= 28 then 26 else if ver <= 29 then 28 else if ver <= 30 then 29 else
      if ver <= 31 then 31 else if ver <= 32 then 33 else if ver <= 33 then 35 else if ver <= 34 then 37 else
      if ver <= 35 then 38 else if ver <= 36 then 40 else if ver <= 37 then 43 else if ver <= 38 then 45 else
      if ver <= 39 then 47 else 49
    case QUARTILE =>
      if ver <= 2 then 1 else if ver <= 4 then 2 else if ver <= 6 then 4 else if ver <= 8 then 6 else
      if ver <= 11 then 8 else if ver <= 12 then 10 else if ver <= 13 then 12 else if ver <= 14 then 16 else
      if ver <= 15 then 12 else if ver <= 16 then 17 else if ver <= 17 then 16 else if ver <= 18 then 18 else
      if ver <= 19 then 21 else if ver <= 20 then 20 else if ver <= 22 then 23 else if ver <= 23 then 25 else
      if ver <= 24 then 27 else if ver <= 25 then 29 else if ver <= 27 then 34 else if ver <= 28 then 35 else
      if ver <= 29 then 38 else if ver <= 30 then 40 else if ver <= 31 then 43 else if ver <= 32 then 45 else
      if ver <= 33 then 48 else if ver <= 34 then 51 else if ver <= 35 then 53 else if ver <= 36 then 56 else
      if ver <= 37 then 59 else if ver <= 38 then 62 else if ver <= 39 then 65 else 68
    case HIGH =>
      if ver <= 2 then 1 else if ver <= 3 then 2 else if ver <= 6 then 4 else if ver <= 7 then 5 else
      if ver <= 8 then 6 else if ver <= 10 then 8 else if ver <= 12 then 11 else if ver <= 14 then 16 else
      if ver <= 15 then 18 else if ver <= 16 then 16 else if ver <= 17 then 19 else if ver <= 18 then 21 else
      if ver <= 21 then 25 else if ver <= 22 then 34 else if ver <= 23 then 30 else if ver <= 24 then 32 else
      if ver <= 25 then 35 else if ver <= 26 then 37 else if ver <= 27 then 40 else if ver <= 28 then 42 else
      if ver <= 29 then 45 else if ver <= 30 then 48 else if ver <= 31 then 51 else if ver <= 32 then 54 else
      if ver <= 33 then 57 else if ver <= 34 then 60 else if ver <= 35 then 63 else if ver <= 36 then 66 else
      if ver <= 37 then 70 else if ver <= 38 then 74 else if ver <= 39 then 77 else 81
  }

  function SizeOf(ver: int): int
  {
    ver * 4 + 17
  }

  lemma {:induction false} SizeIsOdd(ver: int, n: int)
    requires ver >= 1 && n == SizeOf(ver)
    ensures n >= 21 && n % 2 == 1
  {
    OddForm(n, 2 * ver + 8);
  }

  lemma {:induction false} OddForm(n: int, k: int)
    requires n == 2 * k + 1
    ensures n % 2 == 1
  {
  }

  /** `QrCode::getNumRawDataModules` */
  function NumRawDataModules(ver: int): int
  {
    var result := (16 * ver + 128) * ver + 64;
    if ver < 2 then result else
      var numAlign := ver / 7 + 2;
      result - ((25 * numAlign - 10) * numAlign - 55) - (if ver >= 7 then 36 else 0)
  }

  function RawCodewords(ver: int): int
  {
    NumRawDataModules(ver) / 8
  }

  /** `QrCode::getNumDataCodewords` */
  function NumDataCodewords(ver: int, ecl: Ecc): int
    requires MIN_VERSION <= ver <= MAX_VERSION
  {
    RawCodewords(ver) - EccCodewordsPerBlock(ecl, ver) * NumErrorCorrectionBlocks(ecl, ver)
  }

  /** The range check of `QrCode::getNumRawDataModules` never fails. */
  lemma {:induction false} RawModulesInRange(ver: int)
    requires MIN_VERSION <= ver <= MAX_VERSION
    ensures 208 <= NumRawDataModules(ver) <= 29648
  {
    if ver <= 20 {
      if ver <= 10 {} else {}
    } else {
      if ver <= 30 {} else {}
    }
  }

  /** A stronger level leaves fewer data codewords, but some. */
  lemma {:induction false} CapacitiesDecrease(ver: int)
    requires MIN_VERSION <= ver <= MAX_VERSION
    ensures 0 < NumDataCodewords(ver, HIGH) < NumDataCodewords(ver, QUARTILE)
              < NumDataCodewords(ver, MEDIUM) < NumDataCodewords(ver, LOW)
  {
    if ver <= 20 {
      if ver <= 10 {} else {}
    } else {
      if ver <= 30 {} else {}
    }
  }

  lemma {:induction false} BlockParameters(ver: int, ecl: Ecc)
    requires MIN_VERSION <= ver <= MAX_VERSION
    ensures NumErrorCorrectionBlocks(ecl, ver) >= 1
    ensures 1 <= EccCodewordsPerBlock(ecl, ver) <= 30
    ensures NumErrorCorrectionBlocks(ecl, ver) * EccCodewordsPerBlock(ecl, ver) < RawCodewords(ver)
  {
    if ver <= 20 {
      if ver <= 10 {} else {}
    } else {
      if ver <= 30 {} else {}
    }
  }

  lemma {:induction false} DataCodewords(ver: int, ecl: Ecc, raw: int, blocks: nat, ecc: nat)
    requires MIN_VERSION <= ver <= MAX_VERSION
    requires raw == RawCodewords(ver) && blocks == NumErrorCorrectionBlocks(ecl, ver) &&
             ecc == EccCodewordsPerBlock(ecl, ver)
    ensures blocks >= 1 && 1 <= ecc <= 30 && blocks * ecc < raw
    ensures NumDataCodewords(ver, ecl) == raw - blocks * ecc
  {
    BlockParameters(ver, ecl);
    MulComm(blocks, ecc);
  }

  lemma {:induction false} MulComm(a: int, b: int)
    ensures a * b == b * a
  {
  }
}
