/** Division by repeated subtraction, and its agreement with the operators. */
module Division {

  /** How often `b` goes into `a`. */
  function Quot(a: nat, b: nat): nat
    requires b >= 1
  {
    if a < b then 0 else 1 + Quot(a - b, b)
  }

  /** What remains. */
  function Rem(a: nat, b: nat): (r: nat)
    requires b >= 1
    ensures r < b
  {
    if a < b then a else Rem(a - b, b)
  }

  lemma {:induction false} QuotRem(a: nat, b: nat)
    requires b >= 1
    ensures a == Quot(a, b) * b + Rem(a, b)
  {
    if a >= b {
      QuotRem(a - b, b);
      assert (Quot(a, b) - 1) * b == Quot(a, b) * b - b;
    }
  }

  lemma {:induction false} QuotIsDivision(a: nat, b: nat)
    requires b >= 1
    ensures Quot(a, b) == a / b && Rem(a, b) == a % b
  {
    QuotRem(a, b);
    DivisionUnique(a, b, a / b, a % b, Quot(a, b), Rem(a, b));
  }

  lemma {:induction false} DivisionUnique(a: int, b: int, q: int, r: int, q': int, r': int)
    requires 0 <= r < b && 0 <= r' < b && a == q * b + r && a == q' * b + r'
    ensures q == q' && r == r'
  {
    if q < q' {
      MulMonotone(q + 1, q', b);
    } else if q' < q {
      MulMonotone(q' + 1, q, b);
    }
  }

  lemma {:induction false} MulMonotone(a: int, b: int, c: nat)
    requires a <= b
    ensures a * c <= b * c
  {
  }
}
