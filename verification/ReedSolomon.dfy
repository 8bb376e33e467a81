/** Reed-Solomon coding (section 7.5.2 of ISO/IEC 18004). */
module ReedSolomon {
  import opened Wrappers
  import opened Bits
  import opened Gf256
  import opened Polynomials

  /** (x - r^0)(x - r^1)...(x - r^(n-1)) with r = 2. */
  function Generator(n: nat): (g: Poly)
    ensures |g| == n + 1
  {
    if n == 0 then [1] else PolyMul(Generator(n - 1), [1, Pow(2, n - 1)])
  }

  // ----- the divisor polynomial

  lemma {:induction false} GeneratorIsMonic(n: nat)
    ensures Generator(n)[0] == 1
  {
    if n > 0 {
      GeneratorIsMonic(n - 1);
      MulByLinear(Generator(n - 1), Pow(2, n - 1));
      AddLaws(1, 0, 0);
    }
  }

  /** What the divisor loop holds after `i` factors, with one more leading place. */
  function Padded(d: nat, i: nat): (p: Poly)
    requires i <= d
    ensures |p| == d + 1
  {
    Zeros(d - i) + Generator(i)
  }

  lemma {:induction false} PaddedStep(d: nat, i: nat, j: nat)
    requires i < d && j <= d
    ensures var w := Padded(d, i);
            Padded(d, i + 1)[j] == if j < d then Add(Mul(w[j], Pow(2, i)), w[j + 1]) else Mul(w[j], Pow(2, i))
  {
    var w, c := Padded(d, i), Pow(2, i);
    MulByLinear(Generator(i), c);
    MulZero(c);
    var next: Byte := if j < d then w[j + 1] else 0;
    AddLaws(Mul(w[j], c), next, 0);
    AddLaws(next, 0, 0);
  }

  /** `result` holds `Padded(d, i)` without its first place. */
  ghost predicate HoldsProduct(result: seq<Byte>, d: nat, i: nat)
  {
    |result| == d && i <= d && forall m :: 0 <= m < d ==> result[m] == Padded(d, i)[m + 1]
  }

  /** The inner loop of `QrCode::reedSolomonComputeDivisor`: multiply by x - r^i. */
  method TimesFactor(result: array<Byte>, i: nat, root: Byte)
    requires i < result.Length && root == Pow(2, i) && HoldsProduct(result[..], result.Length, i)
    modifies result
    ensures HoldsProduct(result[..], result.Length, i + 1)
  {
    for j := 0 to result.Length
      invariant forall m :: 0 <= m < j ==> result[m] == Padded(result.Length, i + 1)[m + 1]
      invariant forall m :: j <= m < result.Length ==> result[m] == Padded(result.Length, i)[m + 1]
    {
      PaddedStep(result.Length, i, j + 1);
      var product := Multiply(result[j], root);
      result[j] := product;
      if j + 1 < result.Length {
        result[j] := Add(result[j], result[j + 1]);
      }
    }
  }

  lemma {:induction false} ProductStart(result: seq<Byte>, d: nat)
    requires d >= 1 && |result| == d && result == Zeros(d - 1) + [1]
    ensures HoldsProduct(result, d, 0)
  {
  }

  lemma {:induction false} ProductDone(result: seq<Byte>, d: nat)
    requires d >= 1 && HoldsProduct(result, d, d)
    ensures result == Generator(d)[1..]
  {
    assert Padded(d, d) == Generator(d);
  }

  /** `QrCode::reedSolomonComputeDivisor`: the generator polynomial without its leading 1. */
  method ComputeDivisor(degree: int) returns (r: Result<Poly>)
    ensures r == if 1 <= degree <= 255 then Ok(Generator(degree)[1..]) else Err(DomainError)
  {
    if degree < 1 || degree > 255 {
      return Err(DomainError);
    }
    var result := new Byte[degree](_ => 0);
    result[degree - 1] := 1;
    ProductStart(result[..], degree);
    var root: Byte := 1;
    for i := 0 to degree
      invariant root == Pow(2, i) && HoldsProduct(result[..], degree, i)
    {
      TimesFactor(result, i, root);
      root := Multiply(root, 2);
    }
    ProductDone(result[..], degree);
    return Ok(result[..]);
  }

  // ----- the remainder

  /** One step of the shift register. */
  function Shift(rem: Poly, g: Poly, b: Byte): (r: Poly)
    requires |rem| == |g| >= 1
    ensures |r| == |g|
  {
    PolyAdd(rem[1..] + [0], Scale(g, Add(b, rem[0])))
  }

  function Remainder(data: Poly, g: Poly): (r: Poly)
    requires |g| >= 1
    ensures |r| == |g|
  {
    if data == [] then Zeros(|g|) else Shift(Remainder(data[..|data| - 1], g), g, data[|data| - 1])
  }

  /** The factors the shift register uses, first to last. */
  function Quotient(data: Poly, g: Poly): (q: Poly)
    requires |g| >= 1
    ensures |q| == |data|
  {
    if data == [] then [] else
      var k := |data| - 1;
      Quotient(data[..k], g) + [Add(data[k], Remainder(data[..k], g)[0])]
  }

  /** The loops of `QrCode::reedSolomonComputeRemainder`. */
  method ShiftThrough(data: Poly, divisor: Poly) returns (result: Poly)
    requires |divisor| >= 1
    ensures result == Remainder(data, divisor)
  {
    result := Zeros(|divisor|);
    for k := 0 to |data|
      invariant result == Remainder(data[..k], divisor)
    {
      assert data[..k + 1][..k] == data[..k];
      ghost var next := Shift(result, divisor, data[k]);
      var factor := Add(data[k], result[0]);
      result := result[1..] + [0];
      ghost var shifted := result;
      for i := 0 to |result|
        invariant |result| == |divisor|
        invariant forall m :: 0 <= m < i ==> result[m] == next[m]
        invariant forall m :: i <= m < |result| ==> result[m] == shifted[m]
      {
        var product := Multiply(divisor[i], factor);
        result := result[i := Add(result[i], product)];
      }
      assert result == next;
    }
    assert data[..|data|] == data;
  }

  /** `QrCode::reedSolomonComputeRemainder`; an empty divisor has no first coefficient to take. */
  method ComputeRemainder(data: Poly, divisor: Poly) returns (r: Result<Poly>)
    ensures r == if |divisor| >= 1 then Ok(Remainder(data, divisor)) else if data == [] then Ok([]) else Err(OutOfRange)
  {
    if |divisor| == 0 {
      return if data == [] then Ok([]) else Err(OutOfRange);
    }
    var result := ShiftThrough(data, divisor);
    return Ok(result);
  }

  /** data * x^n == q * (x^n + g) + r: polynomial division by the monic divisor with tail `g`. */
  ghost predicate IsDivision(data: Poly, g: Poly, q: Poly, r: Poly)
    requires |g| >= 1
  {
    && |q| == |data|
    && |r| == |g|
    && data + Zeros(|g|) == PolyAdd(PolyMul(q, [1] + g), Zeros(|data|) + r)
  }

  /** The product before the last quotient digit, entry by entry. */
  lemma {:induction false} ProductStep(q: Poly, g: Poly, f: Byte, t: nat)
    requires t < |q| + 1 + |g|
    ensures PolyMul(q + [f], [1] + g)[t] ==
            if t < |q| then PolyMul(q, [1] + g)[t]
            else Add(if t < |q| + |g| then PolyMul(q, [1] + g)[t] else 0,
                     if t == |q| then f else Mul(g[t - |q| - 1], f))
  {
    assert (q + [f])[..|q|] == q;
    MulOne(f);
    if t < |q| { AddLaws(PolyMul(q, [1] + g)[t], 0, 0); }
  }

  lemma {:induction false} ShiftRegisterDivides(data: Poly, g: Poly)
    requires |g| >= 1
    ensures IsDivision(data, g, Quotient(data, g), Remainder(data, g))
  {
    if data == [] {
      AddLaws(0, 0, 0);
    } else {
      var k := |data| - 1;
      ShiftRegisterDivides(data[..k], g);
      DivisionStep(data[..k], g, Quotient(data[..k], g), Remainder(data[..k], g), data[k]);
      assert data[..k] + [data[k]] == data;
    }
  }

  lemma {:induction false} DivisionStep(data: Poly, g: Poly, q: Poly, r: Poly, b: Byte)
    requires |g| >= 1 && IsDivision(data, g, q, r)
    ensures IsDivision(data + [b], g, q + [Add(b, r[0])], Shift(r, g, b))
  {
    var k, n, f := |data|, |g|, Add(b, r[0]);
    var m, m', r' := PolyMul(q, [1] + g), PolyMul(q + [f], [1] + g), Shift(r, g, b);
    var l, s := data + [b] + Zeros(n), PolyAdd(m', Zeros(k + 1) + r');
    forall t | 0 <= t < k + 1 + n
      ensures l[t] == s[t]
    {
      ProductStep(q, g, f, t);
      DivisionEntry(data, g, q, r, t);
      if t <= k {
        AddLaws(m'[t], 0, 0);
        if t == k { CancelRight(r[0], b); }
      } else {
        var x: Byte := if t < k + n then m[t] else 0;
        AddLaws(Add(x, Mul(g[t - k - 1], f)), 0, 0);
      }
    }
    assert l == s;
  }

  lemma {:induction false} CancelRight(a: Byte, b: Byte)
    ensures Add(a, Add(b, a)) == b
  {
    AddLaws(b, a, 0);
    AddLaws(a, a, b);
    AddLaws(0, b, 0);
  }

  /** Above the remainder the product is the data; below, it is the remainder itself. */
  lemma {:induction false} DivisionEntry(data: Poly, g: Poly, q: Poly, r: Poly, t: nat)
    requires |g| >= 1 && IsDivision(data, g, q, r)
    ensures t < |data| ==> PolyMul(q, [1] + g)[t] == data[t]
    ensures |data| <= t < |data| + |g| ==> PolyMul(q, [1] + g)[t] == r[t - |data|]
  {
    if t < |data| + |g| {
      var m, z := PolyMul(q, [1] + g), Zeros(|data|) + r;
      assert (data + Zeros(|g|))[t] == Add(m[t], z[t]);
      if t < |data| {
        AddLaws(m[t], 0, 0);
      } else {
        CancelRight(z[t], m[t]);
        AddLaws(z[t], 0, 0);
        AddLaws(m[t], z[t], 0);
      }
    }
  }

  /** Dropping the last data codeword and the last quotient digit leaves a division. */
  lemma {:induction false} DivisionPrefix(data: Poly, g: Poly, q: Poly, r: Poly, b: Byte, f: Byte)
    requires |g| >= 1 && |q| == |data| && IsDivision(data + [b], g, q + [f], r)
    ensures IsDivision(data, g, q, PolyMul(q, [1] + g)[|data|..])
  {
    var k, n, m := |data|, |g|, PolyMul(q, [1] + g);
    var l, s := data + Zeros(n), PolyAdd(m, Zeros(k) + m[k..]);
    forall t | 0 <= t < k + n
      ensures l[t] == s[t]
    {
      ProductStep(q, g, f, t);
      DivisionEntry(data + [b], g, q + [f], r, t);
      AddLaws(m[t], 0, 0);
    }
    assert l == s;
  }

  lemma {:induction false} LastDigit(data: Poly, g: Poly, q: Poly, r: Poly, b: Byte, f: Byte)
    requires |g| >= 1 && |q| == |data| && IsDivision(data + [b], g, q + [f], r)
    ensures var r' := PolyMul(q, [1] + g)[|data|..]; f == Add(b, r'[0]) && r == Shift(r', g, b)
  {
    var k, m := |data|, PolyMul(q, [1] + g);
    var r' := m[k..];
    assert b == Add(m[k], f) by {
      ProductStep(q, g, f, k);
      DivisionEntry(data + [b], g, q + [f], r, k);
    }
    AddLaws(m[k], f, 0);
    CancelRight(m[k], f);
    AddLaws(b, m[k], 0);
    forall t | 0 <= t < |g|
      ensures r[t] == Shift(r', g, b)[t]
    {
      ProductStep(q, g, f, k + 1 + t);
      DivisionEntry(data + [b], g, q + [f], r, k + 1 + t);
    }
  }

  /** Quotient and remainder are the only ones of their lengths. */
  lemma {:induction false} DivisionIsUnique(data: Poly, g: Poly, q: Poly, r: Poly)
    requires |g| >= 1 && IsDivision(data, g, q, r)
    ensures q == Quotient(data, g) && r == Remainder(data, g)
  {
    if data == [] {
      forall t | 0 <= t < |g| ensures r[t] == 0 { DivisionEntry(data, g, q, r, t); }
    } else {
      var k := |data| - 1;
      assert data[..k] + [data[k]] == data && q[..k] + [q[k]] == q;
      DivisionPrefix(data[..k], g, q[..k], r, data[k], q[k]);
      LastDigit(data[..k], g, q[..k], r, data[k], q[k]);
      DivisionIsUnique(data[..k], g, q[..k], PolyMul(q[..k], [1] + g)[k..]);
    }
  }

  // ----- codewords

  lemma {:induction false} EvalSnoc(p: Poly, a: Byte, x: Byte)
    ensures Eval(p + [a], x) == Add(Mul(Eval(p, x), x), a)
  {
    assert (p + [a])[..|p|] == p;
  }

  lemma {:induction false} EvalLinear(c: Byte, x: Byte)
    ensures Eval([1, c], x) == Add(x, c)
  {
    assert [1, c] == [] + [1] + [c];
    EvalSnoc([] + [1], c, x);
    EvalSnoc([], 1, x);
    MulZero(x);
    MulOne(x);
  }

  lemma {:induction false} GeneratorRoots(n: nat, i: nat)
    requires i < n
    ensures Eval(Generator(n), Pow(2, i)) == 0
  {
    var a, c := Pow(2, i), Pow(2, n - 1);
    var factor := [1, c];
    EvalMul(Generator(n - 1), factor, a);
    if i < n - 1 {
      GeneratorRoots(n - 1, i);
      MulZero(Eval(factor, a));
    } else {
      EvalLinear(c, a);
      AddLaws(a, 0, 0);
      MulZero(Eval(Generator(n - 1), a));
    }
  }

  /** Data followed by its error correction codewords vanishes at r^0, ..., r^(d-1). */
  lemma {:induction false} CodewordRoots(data: Poly, d: nat, i: nat)
    requires i < d
    ensures Eval(data + Remainder(data, Generator(d)[1..]), Pow(2, i)) == 0
  {
    var g := Generator(d)[1..];
    var q, r := Quotient(data, g), Remainder(data, g);
    GeneratorIsMonic(d);
    assert [1] + g == Generator(d);
    ShiftRegisterDivides(data, g);
    forall t | 0 <= t < |data| + d
      ensures (data + r)[t] == PolyMul(q, Generator(d))[t]
    {
      DivisionEntry(data, g, q, r, t);
    }
    assert data + r == PolyMul(q, Generator(d));
    EvalMul(q, Generator(d), Pow(2, i));
    GeneratorRoots(d, i);
    MulZero(Eval(q, Pow(2, i)));
  }
}
