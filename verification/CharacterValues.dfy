/** The values of the characters in alphanumeric mode (table 5 of ISO/IEC 18004). */
module CharacterValues {
  import opened Wrappers
  import opened Segments

  const OTHERS := " $%*+-./:"

  function ValueOf(c: char): nat
  {
    Index(c, ALPHANUMERIC_CHARSET)
  }

  lemma {:induction false} FirstAt(c: char, s: string, i: nat, k: nat)
    requires i <= k < |s| && s[k] == c && forall j :: i <= j < k ==> s[j] != c
    ensures FirstIndex(c, s, i) == Some(k)
    decreases k - i
  {
    if i < k { FirstAt(c, s, i + 1, k); }
  }

  lemma {:induction false} DigitsFirst(d: nat)
    requires d < 10
    ensures ALPHANUMERIC_CHARSET[d] as int == '0' as int + d
  {
    assert d == 0 || d == 1 || d == 2 || d == 3 || d == 4 || d == 5 || d == 6 || d == 7 || d == 8 || d == 9;
  }

  lemma {:induction false} LettersNext(l: nat)
    requires l < 26
    ensures ALPHANUMERIC_CHARSET[10 + l] as int == 'A' as int + l
  {
    if l < 13 {
      assert l == 0 || l == 1 || l == 2 || l == 3 || l == 4 || l == 5 || l == 6 || l == 7 || l == 8 || l == 9 ||
             l == 10 || l == 11 || l == 12;
    } else {
      assert l == 13 || l == 14 || l == 15 || l == 16 || l == 17 || l == 18 || l == 19 || l == 20 || l == 21 ||
             l == 22 || l == 23 || l == 24 || l == 25;
    }
  }

  lemma {:induction false} OthersLast(k: nat)
    requires k < 9
    ensures ALPHANUMERIC_CHARSET[36 + k] == OTHERS[k]
  {
    assert k == 0 || k == 1 || k == 2 || k == 3 || k == 4 || k == 5 || k == 6 || k == 7 || k == 8;
  }

  /** Digits and then letters, in their order. */
  lemma {:induction false} Begins(s: string)
    requires s == ALPHANUMERIC_CHARSET
    ensures |s| == 45
    ensures forall j :: 0 <= j < 10 ==> s[j] as int == '0' as int + j
    ensures forall j :: 10 <= j < 36 ==> s[j] as int == 'A' as int + (j - 10)
    ensures forall j :: 36 <= j < 45 ==> s[j] == OTHERS[j - 36]
  {
    forall j | 0 <= j < 10 ensures s[j] as int == '0' as int + j { DigitsFirst(j); }
    forall j | 10 <= j < 36 ensures s[j] as int == 'A' as int + (j - 10) { LettersNext(j - 10); }
    forall j | 36 <= j < 45 ensures s[j] == OTHERS[j - 36] { OthersLast(j - 36); }
  }

  lemma {:induction false} DigitOf(c: char, s: string)
    requires '0' <= c <= '9' && s == ALPHANUMERIC_CHARSET
    ensures FirstIndex(c, s, 0) == Some(c as int - '0' as int)
  {
    Begins(s);
    FirstAt(c, s, 0, c as int - '0' as int);
  }

  lemma {:induction false} LetterOf(c: char, s: string)
    requires 'A' <= c <= 'Z' && s == ALPHANUMERIC_CHARSET
    ensures FirstIndex(c, s, 0) == Some(c as int - 'A' as int + 10)
  {
    Begins(s);
    FirstAt(c, s, 0, c as int - 'A' as int + 10);
  }

  /** The nine are different, and neither digits nor letters. */
  lemma {:induction false} OthersApart(k: nat, j: nat)
    requires j < k < 9
    ensures OTHERS[j] != OTHERS[k]
  {
    assert k == 1 || k == 2 || k == 3 || k == 4 || k == 5 || k == 6 || k == 7 || k == 8;
  }

  lemma {:induction false} NoDigitOrLetter(k: nat)
    requires k < 9
    ensures !('0' <= OTHERS[k] <= '9') && !('A' <= OTHERS[k] <= 'Z')
  {
    assert k == 0 || k == 1 || k == 2 || k == 3 || k == 4 || k == 5 || k == 6 || k == 7 || k == 8;
  }

  lemma {:induction false} OtherOf(k: nat, s: string)
    requires k < 9 && s == ALPHANUMERIC_CHARSET
    ensures FirstIndex(OTHERS[k], s, 0) == Some(36 + k)
  {
    Begins(s);
    NoDigitOrLetter(k);
    forall j | 0 <= j < 36 + k
      ensures s[j] != OTHERS[k]
    {
      if j >= 36 { OthersApart(k, j - 36); }
    }
    FirstAt(OTHERS[k], s, 0, 36 + k);
  }

  /** A digit has its number as value, a letter its place in the alphabet after the digits, and the nine other
      characters follow in their order. */
  lemma {:induction false} Values(c: char, k: nat)
    requires k < 9
    ensures '0' <= c <= '9' ==> ValueOf(c) == c as int - '0' as int
    ensures 'A' <= c <= 'Z' ==> ValueOf(c) == c as int - 'A' as int + 10
    ensures ValueOf(OTHERS[k]) == 36 + k
  {
    if '0' <= c <= '9' { DigitOf(c, ALPHANUMERIC_CHARSET); }
    if 'A' <= c <= 'Z' { LetterOf(c, ALPHANUMERIC_CHARSET); }
    OtherOf(k, ALPHANUMERIC_CHARSET);
  }
}
