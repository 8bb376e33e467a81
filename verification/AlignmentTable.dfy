/** The alignment pattern positions of all versions (annex E of ISO/IEC 18004). */
module AlignmentTable {
  import opened Versions
  import opened FunctionPatterns

  /** Row and column coordinates of the centres, from version 2 on. */
  function Row(ver: int): seq<int>
  {
    match ver
    case 2 => [6, 18]
    case 3 => [6, 22]
    case 4 => [6, 26]
    case 5 => [6, 30]
    case 6 => [6, 34]
    case 7 => [6, 22, 38]
    case 8 => [6, 24, 42]
    case 9 => [6, 26, 46]
    case 10 => [6, 28, 50]
    case 11 => [6, 30, 54]
    case 12 => [6, 32, 58]
    case 13 => [6, 34, 62]
    case 14 => [6, 26, 46, 66]
    case 15 => [6, 26, 48, 70]
    case 16 => [6, 26, 50, 74]
    case 17 => [6, 30, 54, 78]
    case 18 => [6, 30, 56, 82]
    case 19 => [6, 30, 58, 86]
    case 20 => [6, 34, 62, 90]
    case 21 => [6, 28, 50, 72, 94]
    case 22 => [6, 26, 50, 74, 98]
    case 23 => [6, 30, 54, 78, 102]
    case 24 => [6, 28, 54, 80, 106]
    case 25 => [6, 32, 58, 84, 110]
    case 26 => [6, 30, 58, 86, 114]
    case 27 => [6, 34, 62, 90, 118]
    case 28 => [6, 26, 50, 74, 98, 122]
    case 29 => [6, 30, 54, 78, 102, 126]
    case 30 => [6, 26, 52, 78, 104, 130]
    case 31 => [6, 30, 56, 82, 108, 134]
    case 32 => [6, 34, 60, 86, 112, 138]
    case 33 => [6, 30, 58, 86, 114, 142]
    case 34 => [6, 34, 62, 90, 118, 146]
    case 35 => [6, 30, 54, 78, 102, 126, 150]
    case 36 => [6, 24, 50, 76, 102, 128, 154]
    case 37 => [6, 28, 54, 80, 106, 132, 158]
    case 38 => [6, 32, 58, 84, 110, 136, 162]
    case 39 => [6, 26, 54, 82, 110, 138, 166]
    case _ => [6, 30, 58, 86, 114, 142, 170]
  }

  /** The first position, and the others at equal steps down from the last. */
  predicate Stepped(p: seq<int>, size: int, step: int)
  {
    |p| >= 2 && p[0] == 6 && p[|p| - 1] == size - 7 && forall i :: 1 <= i < |p| - 1 ==> p[i] == p[i + 1] - step
  }

  lemma {:induction false} Rows2To6(ver: int)
    requires 2 <= ver <= 6
    ensures |Row(ver)| == AlignCount(ver) && Stepped(Row(ver), SizeOf(ver), AlignStep(ver))
  {
    assert ver == 2 || ver == 3 || ver == 4 || ver == 5 || ver == 6;
  }

  lemma {:induction false} Rows7To13(ver: int)
    requires 7 <= ver <= 13
    ensures |Row(ver)| == AlignCount(ver) && Stepped(Row(ver), SizeOf(ver), AlignStep(ver))
  {
    assert ver == 7 || ver == 8 || ver == 9 || ver == 10 || ver == 11 || ver == 12 || ver == 13;
  }

  lemma {:induction false} Rows14To20(ver: int)
    requires 14 <= ver <= 20
    ensures |Row(ver)| == AlignCount(ver) && Stepped(Row(ver), SizeOf(ver), AlignStep(ver))
  {
    assert ver == 14 || ver == 15 || ver == 16 || ver == 17 || ver == 18 || ver == 19 || ver == 20;
  }

  lemma {:induction false} Rows21To27(ver: int)
    requires 21 <= ver <= 27
    ensures |Row(ver)| == AlignCount(ver) && Stepped(Row(ver), SizeOf(ver), AlignStep(ver))
  {
    assert ver == 21 || ver == 22 || ver == 23 || ver == 24 || ver == 25 || ver == 26 || ver == 27;
  }

  lemma {:induction false} Rows28To34(ver: int)
    requires 28 <= ver <= 34
    ensures |Row(ver)| == AlignCount(ver) && Stepped(Row(ver), SizeOf(ver), AlignStep(ver))
  {
    assert ver == 28 || ver == 29 || ver == 30 || ver == 31 || ver == 32 || ver == 33 || ver == 34;
  }

  lemma {:induction false} Rows35To40(ver: int)
    requires 35 <= ver <= 40
    ensures |Row(ver)| == AlignCount(ver) && Stepped(Row(ver), SizeOf(ver), AlignStep(ver))
  {
    assert ver == 35 || ver == 36 || ver == 37 || ver == 38 || ver == 39 || ver == 40;
  }

  lemma {:induction false} SteppedPosition(ver: int, p: seq<int>, i: nat)
    requires ver >= 2 && |p| == AlignCount(ver) && Stepped(p, SizeOf(ver), AlignStep(ver)) && i < |p|
    ensures AlignPos(ver, i) == p[i]
    decreases |p| - i
  {
    if 0 < i < |p| - 1 { SteppedPosition(ver, p, i + 1); }
  }

  /** The computed positions are those of the table. */
  lemma {:induction false} PositionsAsInTable(ver: int, i: nat)
    requires 2 <= ver <= MAX_VERSION && i < AlignCount(ver)
    ensures |Row(ver)| == AlignCount(ver) && AlignPos(ver, i) == Row(ver)[i]
  {
    if ver <= 6 {
      Rows2To6(ver);
    } else if ver <= 13 {
      Rows7To13(ver);
    } else if ver <= 20 {
      Rows14To20(ver);
    } else if ver <= 27 {
      Rows21To27(ver);
    } else if ver <= 34 {
      Rows28To34(ver);
    } else {
      Rows35To40(ver);
    }
    SteppedPosition(ver, Row(ver), i);
  }
}
