/** Cardinalities of sets of cells. */
module Counting {
  import opened Zigzag

  function Range(a: int, b: int): (s: set<int>)
    ensures forall x :: x in s <==> a <= x < b
  {
    set x | a <= x < b && Between(a, x, b)
  }

  predicate Between(a: int, x: int, b: int)
  {
    a <= x < b
  }

  function Product(xs: set<int>, ys: set<int>): (s: set<Cell>)
    ensures forall c: Cell :: c in s <==> c.0 in xs && c.1 in ys
  {
    var s := set x, y | x in xs && y in ys :: (x, y);
    assert forall x, y :: x in xs && y in ys ==> (x, y) in s;
    assert forall c: Cell :: c.0 in xs && c.1 in ys ==> (c.0, c.1) in s;
    s
  }

  lemma {:induction false} Pick<T>(s: set<T>) returns (x: T)
    requires s != {}
    ensures x in s
  {
    x :| x in s;
  }

  lemma {:induction false} RangeSize(a: int, b: int)
    requires a <= b
    ensures |Range(a, b)| == b - a
    decreases b - a
  {
    if a < b {
      RangeSize(a, b - 1);
      assert Range(a, b) == Range(a, b - 1) + {b - 1};
    } else {
      assert Range(a, b) == {};
    }
  }

  lemma {:induction false} DisjointSize<T>(s: set<T>, t: set<T>)
    requires s !! t
    ensures |s + t| == |s| + |t|
  {
  }

  lemma {:induction false} ProductSize(xs: set<int>, ys: set<int>, a: nat, b: nat)
    requires |xs| == a && |ys| == b
    ensures |Product(xs, ys)| == a * b
  {
    if |xs| == 0 {
      assert Product(xs, ys) == {};
    } else {
      var x := Pick(xs);
      var rest := xs - {x};
      ProductSize(rest, ys, a - 1, b);
      ColumnSize(x, ys);
      assert Product(xs, ys) == Product(rest, ys) + Product({x}, ys);
      DisjointSize(Product(rest, ys), Product({x}, ys));
      assert (a - 1) * b + b == a * b;
    }
  }

  lemma {:induction false} ColumnSize(x: int, ys: set<int>)
    ensures |Product({x}, ys)| == |ys|
  {
    if |ys| == 0 {
      assert Product({x}, ys) == {};
    } else {
      var y := Pick(ys);
      ColumnSize(x, ys - {y});
      assert Product({x}, ys) == Product({x}, ys - {y}) + {(x, y)};
    }
  }

  lemma {:induction false} ProductsDisjoint(xs: set<int>, ys: set<int>, xs': set<int>, ys': set<int>)
    requires xs !! xs' || ys !! ys'
    ensures Product(xs, ys) !! Product(xs', ys')
  {
  }

  lemma {:induction false} ThreeDisjointSize<T>(s: set<T>, t: set<T>, u: set<T>)
    requires s !! t && s !! u && t !! u
    ensures |s + t + u| == |s| + |t| + |u|
  {
    DisjointSize(s, t);
    DisjointSize(s + t, u);
  }

  lemma {:induction false} DifferenceSize<T>(s: set<T>, t: set<T>)
    requires t <= s
    ensures |s - t| == |s| - |t|
  {
    assert s == (s - t) + t;
  }
}
