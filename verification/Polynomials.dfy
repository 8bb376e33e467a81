/** Polynomials over GF(2^8/0x11D) as coefficient sequences, highest power first. */
module Polynomials {
  import opened Bits
  import opened Gf256

  type Poly = seq<Byte>

  function Zeros(n: nat): (p: Poly)
    ensures |p| == n && forall i :: 0 <= i < n ==> p[i] == 0
  {
    seq(n, _ => 0)
  }

  function PolyAdd(p: Poly, q: Poly): (r: Poly)
    requires |p| == |q|
    ensures |r| == |p|
  {
    seq(|p|, i requires 0 <= i < |p| => Add(p[i], q[i]))
  }

  function Scale(p: Poly, c: Byte): (r: Poly)
    ensures |r| == |p|
  {
    seq(|p|, i requires 0 <= i < |p| => Mul(p[i], c))
  }

  function PolyMul(q: Poly, g: Poly): (r: Poly)
    requires |g| >= 1
    ensures |r| == |q| + |g| - 1
  {
    if q == [] then Zeros(|g| - 1) else
      var k := |q| - 1;
      PolyAdd(PolyMul(q[..k], g) + [0], Zeros(k) + Scale(g, q[k]))
  }

  /** Horner evaluation at `x`. */
  function Eval(p: Poly, x: Byte): Byte
  {
    if p == [] then 0 else Add(Mul(Eval(p[..|p| - 1], x), x), p[|p| - 1])
  }

  lemma {:induction false} EvalAdd(p: Poly, q: Poly, x: Byte)
    requires |p| == |q|
    ensures Eval(PolyAdd(p, q), x) == Add(Eval(p, x), Eval(q, x))
  {
    if p == [] {
      AddLaws(0, 0, 0);
    } else {
      var k := |p| - 1;
      assert PolyAdd(p, q)[..k] == PolyAdd(p[..k], q[..k]);
      EvalAdd(p[..k], q[..k], x);
      MulAdd(Eval(p[..k], x), Eval(q[..k], x), x);
      AddSwap(Mul(Eval(p[..k], x), x), Mul(Eval(q[..k], x), x), p[k], q[k]);
    }
  }

  lemma {:induction false} EvalScale(p: Poly, c: Byte, x: Byte)
    ensures Eval(Scale(p, c), x) == Mul(Eval(p, x), c)
  {
    if p == [] {
      MulZero(c);
    } else {
      var k := |p| - 1;
      var e := Eval(p[..k], x);
      assert Scale(p, c)[..k] == Scale(p[..k], c);
      EvalScale(p[..k], c, x);
      MulAdd(Mul(e, x), p[k], c);
      MulAssoc(e, c, x);
      MulComm(c, x);
      MulAssoc(e, x, c);
    }
  }

  lemma {:induction false} EvalZerosThen(n: nat, p: Poly, x: Byte)
    ensures Eval(Zeros(n) + p, x) == Eval(p, x)
    decreases n + |p|
  {
    var s := Zeros(n) + p;
    var k := |s| - 1;
    if p != [] {
      assert s[..k] == Zeros(n) + p[..|p| - 1];
      EvalZerosThen(n, p[..|p| - 1], x);
    } else if n > 0 {
      assert s[..k] == Zeros(n - 1) + p;
      EvalZerosThen(n - 1, p, x);
      MulZero(x);
    }
  }

  /** Evaluation is multiplicative. */
  lemma {:induction false} EvalMul(q: Poly, g: Poly, x: Byte)
    requires |g| >= 1
    ensures Eval(PolyMul(q, g), x) == Mul(Eval(q, x), Eval(g, x))
  {
    if q == [] {
      MulZero(Eval(g, x));
      EvalZerosThen(|g| - 1, [], x);
      assert Zeros(|g| - 1) + [] == PolyMul(q, g);
    } else {
      var k := |q| - 1;
      var m := PolyMul(q[..k], g);
      var e, y := Eval(q[..k], x), Eval(g, x);
      assert (m + [0])[..|m|] == m;
      calc {
        Eval(PolyMul(q, g), x);
        { EvalAdd(m + [0], Zeros(k) + Scale(g, q[k]), x); EvalZerosThen(k, Scale(g, q[k]), x); }
        Add(Eval(m + [0], x), Eval(Scale(g, q[k]), x));
        { EvalScale(g, q[k], x); AddLaws(Mul(Eval(m, x), x), 0, 0); MulComm(y, q[k]); }
        Add(Mul(Eval(m, x), x), Mul(q[k], y));
        { EvalMul(q[..k], g, x); MulAssoc(e, y, x); MulComm(y, x); MulAssoc(e, x, y); }
        Add(Mul(Mul(e, x), y), Mul(q[k], y));
        { MulAdd(Mul(e, x), q[k], y); }
        Mul(Add(Mul(e, x), q[k]), y);
      }
    }
  }

  /** Multiplying by x + c: each coefficient becomes its right neighbour plus c times itself. */
  lemma {:induction false} MulByLinear(p: Poly, c: Byte)
    ensures PolyMul(p, [1, c]) == PolyAdd(p + [0], [0] + Scale(p, c))
  {
    if p == [] {
      AddLaws(0, 0, 0);
    } else {
      var k := |p| - 1;
      MulByLinear(p[..k], c);
      var l, r := PolyMul(p, [1, c]), PolyAdd(p + [0], [0] + Scale(p, c));
      assert Scale([1, c], p[k]) == [p[k], Mul(p[k], c)] by {
        MulOne(p[k]);
        MulComm(p[k], c);
      }
      forall j | 0 <= j <= k + 1
        ensures l[j] == r[j]
      {
        AddLaws(PolyMul(p[..k], [1, c] )[if j <= k then j else k], p[k], 0);
        AddLaws(p[k], Mul(p[k], c), 0);
        if j == k && k > 0 { AddLaws(p[k], Mul(p[k - 1], c), 0); }
      }
    }
  }
}
