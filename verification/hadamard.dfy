/** commonnet/backends/hadamard_torch.py and hadamard.py: the rotation around packed weights. Exact
  * arithmetic over the reals; `s` stands for 1 / sqrt(block).
  */
module Hadamard {
  import opened Basics

  type Vec = seq<real>
  type Matrix = seq<Vec>

  function Pow2(k: nat): (n: nat)
    ensures n >= 1
  {
    if k == 0 then 1 else 2 * Pow2(k - 1)
  }

  lemma {:induction false} Pow2Grows(j: nat, k: nat)
    requires j < k
    ensures 2 * Pow2(j) <= Pow2(k)
    decreases k
  {
    if j < k - 1 {
      Pow2Grows(j, k - 1);
    }
  }

  /** A product, by name: what the facts below need of products are the laws MulLaws states. */
  function Mul(x: real, y: real): real {
    x * y
  }

  lemma MulLaws(c: real, x: real, y: real)
    ensures Mul(c, x) + Mul(c, y) == Mul(c, x + y) && Mul(c, x) - Mul(c, y) == Mul(c, x - y)
    ensures Mul(x, -y) == -Mul(x, y) && Mul(1.0, x) == x
    ensures Mul(x, Mul(c, y)) == Mul(c, Mul(x, y))
  {
    assert x * (c * y) == c * (x * y);
  }

  function Add(x: Vec, y: Vec): (r: Vec)
    requires |x| == |y|
    ensures |r| == |x|
  {
    seq(|x|, i requires 0 <= i < |x| => x[i] + y[i])
  }

  function Times(x: Vec, y: Vec): (r: Vec)
    requires |x| == |y|
    ensures |r| == |x|
  {
    seq(|x|, i requires 0 <= i < |x| => Mul(x[i], y[i]))
  }

  function Scale(c: real, x: Vec): (r: Vec)
    ensures |r| == |x|
  {
    seq(|x|, i requires 0 <= i < |x| => Mul(c, x[i]))
  }

  function Sub(x: Vec, y: Vec): (r: Vec)
    requires |x| == |y|
    ensures |r| == |x|
  {
    seq(|x|, i requires 0 <= i < |x| => x[i] - y[i])
  }

  function Neg(x: Vec): (r: Vec)
    ensures |r| == |x|
  {
    seq(|x|, i requires 0 <= i < |x| => -x[i])
  }

  function Dot(x: Vec, y: Vec): real
    requires |x| == |y|
  {
    if x == [] then 0.0 else Dot(x[..|x| - 1], y[..|y| - 1]) + Mul(Last(x), Last(y))
  }

  ghost predicate Square(h: Matrix, n: nat) {
    |h| == n && forall i | 0 <= i < n :: |h[i]| == n
  }

  function Column(h: Matrix, j: nat): (r: Vec)
    requires forall i | 0 <= i < |h| :: j < |h[i]|
    ensures |r| == |h|
  {
    seq(|h|, i requires 0 <= i < |h| => h[i][j])
  }

  /** The row vector x times h. */
  function VecMat(x: Vec, h: Matrix): (r: Vec)
    requires Square(h, |x|)
    ensures |r| == |x|
  {
    seq(|x|, j requires 0 <= j < |x| => Dot(x, Column(h, j)))
  }

  // --- the Sylvester matrix ---------------------------------------------------------------------

  /** [[h, h], [h, -h]]. */
  function Double(h: Matrix): (r: Matrix)
    ensures |r| == 2 * |h|
  {
    seq(|h|, i requires 0 <= i < |h| => h[i] + h[i]) + seq(|h|, i requires 0 <= i < |h| => h[i] + Neg(h[i]))
  }

  function Sylvester(k: nat): (h: Matrix)
    ensures Square(h, Pow2(k))
  {
    if k == 0 then [[1.0]] else Double(Sylvester(k - 1))
  }

  ghost predicate IsPowerOfTwo(n: nat) {
    exists k: nat :: Pow2(k) == n
  }

  /** _hadamard, without the scale: the smallest Sylvester matrix with at least `block` rows. */
  method BuildHadamard(block: nat) returns (h: Matrix, ghost k: nat)
    ensures h == Sylvester(k) && block <= |h| == Pow2(k)
    ensures |h| == block <==> IsPowerOfTwo(block)
    ensures k > 0 ==> Pow2(k - 1) < block
  {
    h, k := [[1.0]], 0;
    while |h| < block
      invariant h == Sylvester(k) && |h| == Pow2(k)
      invariant k > 0 ==> Pow2(k - 1) < block
      decreases block - |h|
    {
      h, k := Double(h), k + 1;
    }
    if IsPowerOfTwo(block) {
      var j: nat :| Pow2(j) == block;
      if j < k - 1 {
        Pow2Grows(j, k - 1);
      } else if k < j {
        Pow2Grows(k, j);
      }
    }
  }

  /** Every entry is 1 or -1, and the matrix is its own transpose. */
  lemma {:induction false} SylvesterIsSymmetric(k: nat, i: nat, j: nat)
    requires i < Pow2(k) && j < Pow2(k)
    ensures var h := Sylvester(k); h[i][j] == h[j][i] && (h[i][j] == 1.0 || h[i][j] == -1.0)
    decreases k
  {
    if k > 0 {
      hide Double;
      var n := Pow2(k - 1);
      SylvesterIsSymmetric(k - 1, if i < n then i else i - n, if j < n then j else j - n);
      DoubleEntry(Sylvester(k - 1), n, i, j);
      DoubleEntry(Sylvester(k - 1), n, j, i);
    }
  }

  lemma DoubleEntry(g: Matrix, n: nat, i: nat, j: nat)
    requires Square(g, n) && i < 2 * n && j < 2 * n
    ensures Square(Double(g), 2 * n)
    ensures var entry := g[if i < n then i else i - n][if j < n then j else j - n];
            Double(g)[i][j] == if i >= n && j >= n then -entry else entry
  {
  }

  // --- the fast transform -----------------------------------------------------------------------

  /** The same product in 2 ^ k * k steps: sums and differences of the transformed halves. */
  function Fwht(k: nat, x: Vec): (r: Vec)
    requires |x| == Pow2(k)
    ensures |r| == |x|
  {
    if k == 0 then x
    else
      var n := Pow2(k - 1);
      var a, b := Fwht(k - 1, x[..n]), Fwht(k - 1, x[n..]);
      Add(a, b) + Sub(a, b)
  }

  lemma {:induction false} DotAppend(a: Vec, b: Vec, c: Vec, d: Vec)
    requires |a| == |c| && |b| == |d|
    ensures Dot(a + b, c + d) == Dot(a, c) + Dot(b, d)
    decreases |b|
  {
    hide Mul;
    if b == [] {
      assert a + b == a && c + d == c;
    } else {
      DotAppend(a, b[..|b| - 1], c, d[..|d| - 1]);
      assert (a + b)[..|a + b| - 1] == a + b[..|b| - 1];
      assert (c + d)[..|c + d| - 1] == c + d[..|d| - 1];
    }
  }

  lemma {:induction false} DotNeg(x: Vec, y: Vec)
    requires |x| == |y|
    ensures Dot(x, Neg(y)) == -Dot(x, y)
  {
    hide Mul;
    if x != [] {
      MulLaws(0.0, Last(x), Last(y));
      DotNeg(x[..|x| - 1], y[..|y| - 1]);
      assert Neg(y)[..|y| - 1] == Neg(y[..|y| - 1]);
    }
  }

  /** The doubling matrix times a vector is what the fast transform computes. */
  lemma {:induction false} MatrixIsFast(k: nat, x: Vec)
    requires |x| == Pow2(k)
    ensures VecMat(x, Sylvester(k)) == Fwht(k, x)
  {
    if k == 0 {
      OneByOne(x);
    } else {
      hide Dot, Column, Fwht, VecMat, Add, Sub, Double;
      var n, g := Pow2(k - 1), Sylvester(k - 1);
      var a, b := x[..n], x[n..];
      MatrixIsFast(k - 1, a);
      MatrixIsFast(k - 1, b);
      assert x == a + b;
      DoubledProduct(g, n, a, b);
      FwhtStep(k, x);
    }
  }

  lemma FwhtStep(k: nat, x: Vec)
    requires k > 0 && |x| == Pow2(k)
    ensures var n := Pow2(k - 1);
            var a, b := Fwht(k - 1, x[..n]), Fwht(k - 1, x[n..]);
            Fwht(k, x) == Add(a, b) + Sub(a, b)
  {
  }

  lemma DoubledProduct(g: Matrix, n: nat, a: Vec, b: Vec)
    requires Square(g, n) && |a| == |b| == n
    ensures Square(Double(g), 2 * n)
    ensures VecMat(a + b, Double(g)) == Add(VecMat(a, g), VecMat(b, g)) + Sub(VecMat(a, g), VecMat(b, g))
  {
    hide Dot, Column;
    forall j: nat | j < 2 * n
      ensures Square(Double(g), 2 * n)
      ensures Dot(a + b, Column(Double(g), j))
           == (Add(VecMat(a, g), VecMat(b, g)) + Sub(VecMat(a, g), VecMat(b, g)))[j]
    {
      DoubledColumn(g, n, j, a, b);
    }
    if n == 0 {
      assert Double(g) == [];
    }
  }

  lemma OneByOne(x: Vec)
    requires |x| == 1
    ensures VecMat(x, [[1.0]]) == x
  {
    assert x[..0] == [] && Column([[1.0]], 0) == [1.0];
    MulLaws(0.0, x[0], 0.0);
    assert Dot(x, Column([[1.0]], 0)) == Mul(x[0], 1.0) == x[0];
  }

  lemma DoubledColumn(g: Matrix, n: nat, j: nat, a: Vec, b: Vec)
    requires Square(g, n) && |a| == |b| == n && j < 2 * n
    ensures Square(Double(g), 2 * n)
    ensures Dot(a + b, Column(Double(g), j))
         == if j < n then VecMat(a, g)[j] + VecMat(b, g)[j] else VecMat(a, g)[j - n] - VecMat(b, g)[j - n]
  {
    hide Dot;
    ColumnOfDouble(g, n, j);
    if j < n {
      var c := Column(g, j);
      DotAppend(a, b, c, c);
    } else {
      var c := Column(g, j - n);
      DotAppend(a, b, c, Neg(c));
      DotNeg(b, c);
    }
  }

  lemma ColumnOfDouble(g: Matrix, n: nat, j: nat)
    requires Square(g, n) && j < 2 * n
    ensures Square(Double(g), 2 * n)
    ensures Column(Double(g), j)
         == if j < n then Column(g, j) + Column(g, j) else Column(g, j - n) + Neg(Column(g, j - n))
  {
  }

  lemma {:induction false} FwhtAdds(k: nat, x: Vec, y: Vec)
    requires |x| == |y| == Pow2(k)
    ensures Fwht(k, Add(x, y)) == Add(Fwht(k, x), Fwht(k, y))
    decreases k
  {
    if k > 0 {
      hide Fwht, Add, Sub;
      var n := Pow2(k - 1);
      FwhtAdds(k - 1, x[..n], y[..n]);
      FwhtAdds(k - 1, x[n..], y[n..]);
      FwhtStep(k, x);
      FwhtStep(k, y);
      FwhtStep(k, Add(x, y));
      AddSlices(x, y, n);
      AddHalves(Fwht(k - 1, x[..n]), Fwht(k - 1, x[n..]), Fwht(k - 1, y[..n]), Fwht(k - 1, y[n..]));
    }
  }

  lemma AddSlices(x: Vec, y: Vec, n: nat)
    requires n <= |x| == |y|
    ensures Add(x, y)[..n] == Add(x[..n], y[..n]) && Add(x, y)[n..] == Add(x[n..], y[n..])
  {
  }

  lemma AddHalves(a: Vec, b: Vec, c: Vec, d: Vec)
    requires |a| == |b| == |c| == |d|
    ensures Add(Add(a, c), Add(b, d)) + Sub(Add(a, c), Add(b, d)) == Add(Add(a, b) + Sub(a, b), Add(c, d) + Sub(c, d))
  {
  }

  lemma {:induction false} FwhtSubs(k: nat, x: Vec, y: Vec)
    requires |x| == |y| == Pow2(k)
    ensures Fwht(k, Sub(x, y)) == Sub(Fwht(k, x), Fwht(k, y))
  {
    hide Fwht;
    FwhtAdds(k, Sub(x, y), y);
    assert Add(Sub(x, y), y) == x;
  }

  /** Transforming twice multiplies by the block size. */
  lemma {:induction false} FwhtTwice(k: nat, x: Vec)
    requires |x| == Pow2(k)
    ensures Fwht(k, Fwht(k, x)) == Scale(Pow2(k) as real, x)
  {
    if k == 0 {
      ScaleOne(x);
    } else {
      hide Fwht, Add, Sub, Scale;
      var n := Pow2(k - 1);
      var a, b := Fwht(k - 1, x[..n]), Fwht(k - 1, x[n..]);
      FwhtTwice(k - 1, x[..n]);
      FwhtTwice(k - 1, x[n..]);
      FwhtAdds(k - 1, a, b);
      FwhtSubs(k - 1, a, b);
      FwhtStep(k, x);
      FwhtStep(k, Fwht(k, x));
      assert (Add(a, b) + Sub(a, b))[..n] == Add(a, b) && (Add(a, b) + Sub(a, b))[n..] == Sub(a, b);
      Halves(n as real, Pow2(k) as real, n, x);
    }
  }

  /** (u + v) + (u - v) and (u + v) - (u - v), for u and v the scaled halves of x. */
  lemma Halves(c: real, d: real, n: nat, x: Vec)
    requires n <= |x| && |x| == 2 * n && d == c + c
    ensures var u, v := Scale(c, x[..n]), Scale(c, x[n..]);
            Add(Add(u, v), Sub(u, v)) + Sub(Add(u, v), Sub(u, v)) == Scale(d, x)
  {
    hide Mul;
    var u, v := Scale(c, x[..n]), Scale(c, x[n..]);
    var both := Add(Add(u, v), Sub(u, v)) + Sub(Add(u, v), Sub(u, v));
    forall i | 0 <= i < 2 * n
      ensures both[i] == Scale(d, x)[i]
    {
      Twice(c, d, x[i]);
      assert both[i] == if i < n then u[i] + u[i] else v[i - n] + v[i - n];
    }
  }

  lemma Twice(c: real, d: real, x: real)
    requires d == c + c
    ensures Mul(c, x) + Mul(c, x) == Mul(d, x)
  {
  }

  lemma ScaleOne(x: Vec)
    ensures Scale(1.0, x) == x
  {
  }

  function Unit(n: nat, i: nat): (r: Vec)
    ensures |r| == n
  {
    seq(n, j requires 0 <= j < n => if j == i then 1.0 else 0.0)
  }

  lemma MulZero(x: real)
    ensures Mul(0.0, x) == 0.0
  {
  }

  lemma {:induction false} DotUnit(n: nat, i: nat, y: Vec)
    requires |y| == n
    ensures Dot(Unit(n, i), y) == if i < n then y[i] else 0.0
    decreases n
  {
    hide Mul;
    if n > 0 {
      MulLaws(0.0, y[n - 1], 0.0);
      MulZero(y[n - 1]);
      DotUnit(n - 1, i, y[..n - 1]);
      assert Unit(n, i)[..n - 1] == Unit(n - 1, i);
    }
  }

  lemma MulUnit(c: real)
    ensures Mul(c, 0.0) == 0.0 && Mul(c, 1.0) == c
  {
  }

  /** H H = block I. */
  lemma RowsAreOrthogonal(k: nat, i: nat, j: nat)
    requires i < Pow2(k) && j < Pow2(k)
    ensures var h := Sylvester(k);
            Dot(h[i], Column(h, j)) == if i == j then Pow2(k) as real else 0.0
  {
    hide Mul, Dot, Sylvester, Fwht;
    var n, h := Pow2(k), Sylvester(k);
    forall c: nat | 0 <= c < n
      ensures VecMat(Unit(n, i), h)[c] == h[i][c]
    {
      DotUnit(n, i, Column(h, c));
    }
    assert VecMat(Unit(n, i), h) == h[i];
    MatrixIsFast(k, Unit(n, i));
    MatrixIsFast(k, h[i]);
    FwhtTwice(k, Unit(n, i));
    assert VecMat(h[i], h)[j] == Scale(n as real, Unit(n, i))[j];
    MulUnit(n as real);
  }

  // --- the rotation of activations --------------------------------------------------------------

  /** s is 1 / sqrt(block). */
  ghost predicate Normal(s: real, k: nat) {
    s * s * Pow2(k) as real == 1.0
  }

  ghost predicate Signs(g: Vec) {
    forall i | 0 <= i < |g| :: g[i] == 1.0 || g[i] == -1.0
  }

  /** Every run of `block` values is transformed by itself. */
  function Blocks(k: nat, s: real, x: Vec): (r: Vec)
    ensures |r| == |x|
    decreases |x|
  {
    if |x| < Pow2(k) then x else Scale(s, Fwht(k, x[..Pow2(k)])) + Blocks(k, s, x[Pow2(k)..])
  }

  datatype FwhtError = BlockDoesNotDivide

  /** commonnet/backends/hadamard.py fwht: signs, then H; the inverse is H, then signs. */
  function Rotate(x: Vec, k: nat, s: real, signs: Vec, inverse: bool): (r: Result<Vec, FwhtError>)
    requires |signs| == |x|
    ensures r.Ok? <==> |x| % Pow2(k) == 0
    ensures r.Ok? ==> |r.value| == |x|
  {
    if |x| % Pow2(k) != 0 then Err(BlockDoesNotDivide)
    else if inverse then Ok(Times(Blocks(k, s, x), signs))
    else Ok(Blocks(k, s, Times(x, signs)))
  }

  lemma {:induction false} FwhtScales(k: nat, c: real, x: Vec)
    requires |x| == Pow2(k)
    ensures Fwht(k, Scale(c, x)) == Scale(c, Fwht(k, x))
  {
    if k > 0 {
      hide Fwht, Scale, Add, Sub;
      var n := Pow2(k - 1);
      FwhtScales(k - 1, c, x[..n]);
      FwhtScales(k - 1, c, x[n..]);
      FwhtStep(k, x);
      FwhtStep(k, Scale(c, x));
      ScaleHalves(c, x, n);
      ScaleSum(c, Fwht(k - 1, x[..n]), Fwht(k - 1, x[n..]));
    }
  }

  lemma ScaleHalves(c: real, x: Vec, n: nat)
    requires n <= |x|
    ensures Scale(c, x)[..n] == Scale(c, x[..n]) && Scale(c, x)[n..] == Scale(c, x[n..])
  {
    hide Mul;
    var l, r := Scale(c, x)[..n], Scale(c, x)[n..];
    assert forall i | 0 <= i < n :: l[i] == Scale(c, x[..n])[i];
    assert forall i | 0 <= i < |x| - n :: r[i] == Scale(c, x[n..])[i];
  }

  lemma ScaleSum(c: real, a: Vec, b: Vec)
    requires |a| == |b|
    ensures Add(Scale(c, a), Scale(c, b)) + Sub(Scale(c, a), Scale(c, b)) == Scale(c, Add(a, b) + Sub(a, b))
  {
    hide Mul;
    var l, r := Add(Scale(c, a), Scale(c, b)) + Sub(Scale(c, a), Scale(c, b)), Scale(c, Add(a, b) + Sub(a, b));
    forall i | 0 <= i < |l|
      ensures l[i] == r[i]
    {
      var j := if i < |a| then i else i - |a|;
      MulLaws(c, a[j], b[j]);
    }
  }

  lemma OneBlockTwice(k: nat, s: real, x: Vec)
    requires |x| == Pow2(k) && Normal(s, k)
    ensures Scale(s, Fwht(k, Scale(s, Fwht(k, x)))) == x
  {
    hide Fwht, Scale, Pow2;
    FwhtScales(k, s, Fwht(k, x));
    FwhtTwice(k, x);
    ScaleAway(s, Pow2(k) as real, x);
  }

  lemma ScaleAway(s: real, c: real, x: Vec)
    requires s * s * c == 1.0
    ensures Scale(s, Scale(s, Scale(c, x))) == x
  {
    hide Mul;
    var r := Scale(s, Scale(s, Scale(c, x)));
    forall i | 0 <= i < |x|
      ensures r[i] == x[i]
    {
      assert r[i] == Mul(s, Mul(s, Mul(c, x[i])));
      Cancel(s, c, x[i]);
    }
  }

  lemma Cancel(s: real, c: real, x: real)
    requires s * s * c == 1.0
    ensures Mul(s, Mul(s, Mul(c, x))) == x
  {
    assert s * (s * (c * x)) == (s * s * c) * x;
  }

  lemma CancelNormal(s: real, k: nat, x: real)
    requires Normal(s, k)
    ensures Mul(s, Mul(s, Mul(Pow2(k) as real, x))) == x
  {
    Cancel(s, Pow2(k) as real, x);
  }

  lemma {:induction false} BlocksTwice(k: nat, s: real, x: Vec)
    requires Normal(s, k)
    ensures Blocks(k, s, Blocks(k, s, x)) == x
    decreases |x|
  {
    hide Normal, Fwht, Scale, Pow2;
    var n := Pow2(k);
    if |x| >= n {
      var first, rest := Scale(s, Fwht(k, x[..n])), Blocks(k, s, x[n..]);
      OneBlockTwice(k, s, x[..n]);
      BlocksTwice(k, s, x[n..]);
      assert (first + rest)[..n] == first && (first + rest)[n..] == rest;
      assert x[..n] + x[n..] == x;
    }
  }

  lemma SignsTwice(x: Vec, g: Vec)
    requires |x| == |g| && Signs(g)
    ensures Times(Times(x, g), g) == x
  {
  }

  lemma SignTwice(x: real, y: real, g: real)
    requires g == 1.0 || g == -1.0
    ensures Mul(Mul(x, g), g) == x
    ensures Mul(Mul(x, g), Mul(y, g)) == Mul(x, y)
  {
  }

  /** Rotating forward and back, or back and forward, changes nothing. */
  lemma RotationRoundTrip(x: Vec, k: nat, s: real, signs: Vec)
    requires |signs| == |x| && Signs(signs) && Normal(s, k) && |x| % Pow2(k) == 0
    ensures Rotate(Rotate(x, k, s, signs, false).value, k, s, signs, true) == Ok(x)
    ensures Rotate(Rotate(x, k, s, signs, true).value, k, s, signs, false) == Ok(x)
  {
    hide Blocks, Times, Signs, Normal;
    BlocksTwice(k, s, Times(x, signs));
    SignsTwice(x, signs);
    SignsTwice(Blocks(k, s, x), signs);
    BlocksTwice(k, s, x);
  }

  // --- what the rotation is for -----------------------------------------------------------------

  lemma {:induction false} Parallelogram(a: Vec, b: Vec, c: Vec, d: Vec)
    requires |a| == |b| == |c| == |d|
    ensures Dot(Add(a, b), Add(c, d)) + Dot(Sub(a, b), Sub(c, d)) == 2.0 * Dot(a, c) + 2.0 * Dot(b, d)
  {
    hide Mul;
    if a != [] {
      var n := |a| - 1;
      Parallelogram(a[..n], b[..n], c[..n], d[..n]);
      assert Add(a, b)[..n] == Add(a[..n], b[..n]) && Add(c, d)[..n] == Add(c[..n], d[..n]);
      assert Sub(a, b)[..n] == Sub(a[..n], b[..n]) && Sub(c, d)[..n] == Sub(c[..n], d[..n]);
      Products(a[n], b[n], c[n], d[n]);
    }
  }

  lemma Products(a: real, b: real, c: real, d: real)
    ensures Mul(a + b, c + d) + Mul(a - b, c - d) == 2.0 * Mul(a, c) + 2.0 * Mul(b, d)
  {
  }

  lemma {:induction false} FwhtKeepsDot(k: nat, x: Vec, y: Vec)
    requires |x| == |y| == Pow2(k)
    ensures Dot(Fwht(k, x), Fwht(k, y)) == Mul(Pow2(k) as real, Dot(x, y))
  {
    hide Dot, Fwht, Mul;
    if k == 0 {
      OneDot(x, y);
    } else {
      var n := Pow2(k - 1);
      FwhtKeepsDot(k - 1, x[..n], y[..n]);
      FwhtKeepsDot(k - 1, x[n..], y[n..]);
      FwhtStepDot(k, x, y);
      CombineHalves(n as real, Dot(x[..n], y[..n]), Dot(x[n..], y[n..]), Pow2(k) as real);
    }
  }

  lemma OneDot(x: Vec, y: Vec)
    requires |x| == |y| == 1
    ensures Dot(Fwht(0, x), Fwht(0, y)) == Mul(Pow2(0) as real, Dot(x, y))
  {
  }

  lemma FwhtStepDot(k: nat, x: Vec, y: Vec)
    requires k > 0 && |x| == |y| == Pow2(k)
    ensures var n := Pow2(k - 1);
            && Dot(Fwht(k, x), Fwht(k, y))
               == 2.0 * Dot(Fwht(k - 1, x[..n]), Fwht(k - 1, y[..n]))
                  + 2.0 * Dot(Fwht(k - 1, x[n..]), Fwht(k - 1, y[n..]))
            && Dot(x, y) == Dot(x[..n], y[..n]) + Dot(x[n..], y[n..])
  {
    hide Dot, Add, Sub, Fwht, Mul;
    FwhtStep(k, x);
    FwhtStep(k, y);
    var n := Pow2(k - 1);
    var a, b, c, d := Fwht(k - 1, x[..n]), Fwht(k - 1, x[n..]), Fwht(k - 1, y[..n]), Fwht(k - 1, y[n..]);
    DotAppend(Add(a, b), Sub(a, b), Add(c, d), Sub(c, d));
    Parallelogram(a, b, c, d);
    DotSplit(x, y, n);
  }

  lemma DotSplit(x: Vec, y: Vec, n: nat)
    requires |x| == |y| && n <= |x|
    ensures Dot(x, y) == Dot(x[..n], y[..n]) + Dot(x[n..], y[n..])
  {
    DotAppend(x[..n], x[n..], y[..n], y[n..]);
    assert x[..n] + x[n..] == x && y[..n] + y[n..] == y;
  }

  lemma CombineHalves(c: real, u: real, v: real, d: real)
    requires d == 2.0 * c
    ensures 2.0 * Mul(c, u) + 2.0 * Mul(c, v) == Mul(d, u + v)
  {
    assert d * (u + v) == 2.0 * (c * (u + v));
    MulLaws(c, u, v);
  }

  lemma {:induction false} ScaledDot(c: real, x: Vec, y: Vec)
    requires |x| == |y|
    ensures Dot(Scale(c, x), Scale(c, y)) == Mul(c, Mul(c, Dot(x, y)))
  {
    hide Mul;
    DotScale(Scale(c, x), c, y);
    DotComm(Scale(c, x), y);
    DotScale(y, c, x);
    DotComm(x, y);
  }

  lemma {:induction false} DotComm(x: Vec, y: Vec)
    requires |x| == |y|
    ensures Dot(x, y) == Dot(y, x)
  {
    if x != [] {
      DotComm(x[..|x| - 1], y[..|y| - 1]);
    }
  }

  lemma {:induction false} DotScale(x: Vec, c: real, y: Vec)
    requires |x| == |y|
    ensures Dot(x, Scale(c, y)) == Mul(c, Dot(x, y))
  {
    hide Mul;
    if x == [] {
      MulUnit(c);
    } else {
      var n := |x| - 1;
      DotScale(x[..n], c, y[..n]);
      ScaleHalves(c, y, n);
      MulLaws(c, x[n], y[n]);
      MulLaws(c, Dot(x[..n], y[..n]), Mul(x[n], y[n]));
    }
  }

  lemma {:induction false} BlocksKeepDot(k: nat, s: real, x: Vec, y: Vec)
    requires |x| == |y| && Normal(s, k)
    ensures Dot(Blocks(k, s, x), Blocks(k, s, y)) == Dot(x, y)
    decreases |x|
  {
    hide Dot, Fwht, Scale, Normal, Mul, Pow2;
    var n := Pow2(k);
    if |x| >= n {
      OneBlockDot(k, s, x[..n], y[..n]);
      BlocksKeepDot(k, s, x[n..], y[n..]);
      DotAppend(Scale(s, Fwht(k, x[..n])), Blocks(k, s, x[n..]), Scale(s, Fwht(k, y[..n])), Blocks(k, s, y[n..]));
      DotSplit(x, y, n);
    }
  }

  lemma OneBlockDot(k: nat, s: real, x: Vec, y: Vec)
    requires |x| == |y| == Pow2(k) && Normal(s, k)
    ensures Dot(Scale(s, Fwht(k, x)), Scale(s, Fwht(k, y))) == Dot(x, y)
  {
    hide Dot, Fwht, Scale, Pow2, Mul, Normal;
    ScaledDot(s, Fwht(k, x), Fwht(k, y));
    FwhtKeepsDot(k, x, y);
    CancelNormal(s, k, Dot(x, y));
  }

  lemma {:induction false} SignsKeepDot(x: Vec, y: Vec, g: Vec)
    requires |x| == |y| == |g| && Signs(g)
    ensures Dot(Times(x, g), Times(y, g)) == Dot(x, y)
  {
    hide Mul;
    if x != [] {
      var n := |x| - 1;
      SignsKeepDot(x[..n], y[..n], g[..n]);
      TimesFront(x, g, n);
      TimesFront(y, g, n);
      assert g[n] == 1.0 || g[n] == -1.0;
      SignTwice(x[n], y[n], g[n]);
    }
  }

  lemma TimesFront(x: Vec, g: Vec, n: nat)
    requires n <= |x| == |g|
    ensures Times(x, g)[..n] == Times(x[..n], g[..n])
  {
  }

  /** Why a layer may keep its weights rotated: a rotated weight row meets a rotated activation in the same
    * product as the row and the activation themselves. */
  lemma RotatedWeightsComputeTheSame(row: Vec, x: Vec, k: nat, s: real, signs: Vec)
    requires |row| == |x| == |signs| && |x| % Pow2(k) == 0 && Normal(s, k) && Signs(signs)
    ensures Dot(Rotate(row, k, s, signs, false).value, Rotate(x, k, s, signs, false).value) == Dot(row, x)
  {
    hide Dot, Blocks, Times, Normal, Signs;
    BlocksKeepDot(k, s, Times(row, signs), Times(x, signs));
    SignsKeepDot(row, x, signs);
  }

  // --- the PyTorch form -------------------------------------------------------------------------

  function ScaleRows(s: real, h: Matrix): (r: Matrix)
    ensures |r| == |h|
    ensures forall i | 0 <= i < |h| :: |r[i]| == |h[i]|
  {
    seq(|h|, i requires 0 <= i < |h| => Scale(s, h[i]))
  }

  lemma ScaledMatrixIsScaled(k: nat, s: real, x: Vec)
    requires |x| == Pow2(k)
    ensures VecMat(x, ScaleRows(s, Sylvester(k))) == Scale(s, Fwht(k, x))
  {
    hide Fwht, Sylvester;
    MatrixIsFast(k, x);
    ScaledProduct(s, Sylvester(k), x);
  }

  lemma ScaledProduct(s: real, h: Matrix, x: Vec)
    requires Square(h, |x|)
    ensures VecMat(x, ScaleRows(s, h)) == Scale(s, VecMat(x, h))
  {
    hide Dot, Mul, Column;
    var l, r := VecMat(x, ScaleRows(s, h)), Scale(s, VecMat(x, h));
    forall j | 0 <= j < |x|
      ensures l[j] == r[j]
    {
      ColumnOfScaled(s, h, j);
      DotScale(x, s, Column(h, j));
    }
  }

  lemma ColumnOfScaled(s: real, h: Matrix, j: nat)
    requires Square(h, |h|) && j < |h|
    ensures Column(ScaleRows(s, h), j) == Scale(s, Column(h, j))
  {
  }

  ghost predicate AllRows(rows: seq<Vec>, width: nat) {
    forall i | 0 <= i < |rows| :: |rows[i]| == width
  }

  /** The rows times the signs, one after the other. */
  function Flat(rows: seq<Vec>, signs: Vec): (r: Vec)
    requires AllRows(rows, |signs|)
  {
    if rows == [] then [] else Flat(rows[..|rows| - 1], signs) + Times(Last(rows), signs)
  }

  lemma {:induction false} FlatLength(rows: seq<Vec>, signs: Vec)
    requires AllRows(rows, |signs|)
    ensures |Flat(rows, signs)| == |rows| * |signs|
  {
    if rows != [] {
      OneRow(|rows|, |signs|);
      FlatLength(rows[..|rows| - 1], signs);
    }
  }

  /** Back to n rows of one width. */
  function Cut(width: nat, n: nat, out: Vec): (r: seq<Vec>)
    requires |out| == n * width
    ensures |r| == n && AllRows(r, width)
  {
    if n == 0 then []
    else
      OneRow(n, width);
      Cut(width, n - 1, out[..|out| - width]) + [out[|out| - width..]]
  }

  /** What the tensor operations make of all rows together. */
  function TorchRows(k: nat, s: real, rows: seq<Vec>, signs: Vec): (r: seq<Vec>)
    requires AllRows(rows, |signs|)
    ensures |r| == |rows| && AllRows(r, |signs|)
  {
    FlatLength(rows, signs);
    Cut(|signs|, |rows|, Blocks(k, s, Flat(rows, signs)))
  }

  /** HadamardLinear.forward before the inner layer: reshape the whole tensor into blocks, multiply each by the
    * scaled matrix, reshape back. It fails where the shapes do not fit, and only there. */
  method TorchRotate(rows: seq<Vec>, signs: Vec, block: nat, s: real) returns (r: Option<seq<Vec>>, ghost k: nat)
    requires AllRows(rows, |signs|)
    ensures r.Some? <==> IsPowerOfTwo(block) && (|rows| * |signs|) % block == 0
    ensures r.Some? ==> block == Pow2(k) && r.value == TorchRows(k, s, rows, signs)
  {
    hide Sylvester, Fwht, Scale, VecMat, Mul, Blocks, Times, Pow2, Flat, Cut;
    var h;
    h, k := BuildHadamard(block);
    var rest := Flat(rows, signs);
    FlatLength(rows, signs);
    if block == 0 || |rest| % block != 0 || |h| != block {
      return None, k;
    }
    var scaled := ScaleRows(s, h);
    ghost var t := rest;
    var out: Vec := [];
    var n := |rest| / block;
    while n > 0
      invariant n >= 0 && |rest| == n * block
      invariant Blocks(k, s, t) == out + Blocks(k, s, rest)
    {
      OneRow(n, block);
      var row := rest[..block];
      ScaledMatrixIsScaled(k, s, row);
      BlocksStep(k, s, rest);
      Assoc(out, VecMat(row, scaled), Blocks(k, s, rest[block..]));
      out, rest := out + VecMat(row, scaled), rest[block..];
      n := n - 1;
    }
    BlocksOfNothing(k, s);
    assert rest == [] && out + [] == out;
    return Some(Cut(|signs|, |rows|, out)), k;
  }

  // --- when rows stay apart ---------------------------------------------------------------------

  lemma {:induction false} BlocksJoin(k: nat, s: real, q: nat, a: Vec, b: Vec)
    requires |a| == q * Pow2(k)
    ensures Blocks(k, s, a + b) == Blocks(k, s, a) + Blocks(k, s, b)
    decreases q
  {
    hide Fwht, Scale, Pow2, Blocks;
    if q == 0 {
      assert a == [] && a + b == b;
      BlocksOfNothing(k, s);
    } else {
      var n := Pow2(k);
      OneRow(q, n);
      BlocksJoin(k, s, q - 1, a[n..], b);
      BlocksStep(k, s, a);
      BlocksStep(k, s, a + b);
      assert (a + b)[..n] == a[..n] && (a + b)[n..] == a[n..] + b;
      Assoc(Scale(s, Fwht(k, a[..n])), Blocks(k, s, a[n..]), Blocks(k, s, b));
    }
  }

  lemma CutLast(width: nat, n: nat, a: Vec, b: Vec)
    requires n > 0 && |a| == (n - 1) * width && |b| == width
    ensures |a + b| == n * width && Cut(width, n, a + b) == Cut(width, n - 1, a) + [b]
  {
    OneRow(n, width);
    assert (a + b)[..|a + b| - width] == a && (a + b)[|a + b| - width..] == b;
  }

  lemma MulAssoc(a: nat, b: nat, c: nat)
    ensures a * (b * c) == (a * b) * c
  {
  }

  lemma TorchRowsStep(k: nat, s: real, q: nat, rows: seq<Vec>, signs: Vec)
    requires AllRows(rows, |signs|) && |signs| == q * Pow2(k) && rows != []
    ensures TorchRows(k, s, rows, signs)
         == TorchRows(k, s, rows[..|rows| - 1], signs) + [Blocks(k, s, Times(Last(rows), signs))]
  {
    hide Blocks, Times, Pow2, Cut;
    var n, front := |rows|, rows[..|rows| - 1];
    FlatLength(front, signs);
    MulAssoc(n - 1, q, Pow2(k));
    BlocksJoin(k, s, (n - 1) * q, Flat(front, signs), Times(Last(rows), signs));
    CutLast(|signs|, n, Blocks(k, s, Flat(front, signs)), Blocks(k, s, Times(Last(rows), signs)));
  }

  /** Where the block divides the width, every row is rotated by itself. */
  lemma {:induction false} RowsAreRotated(k: nat, s: real, q: nat, rows: seq<Vec>, signs: Vec, i: nat)
    requires AllRows(rows, |signs|) && |signs| == q * Pow2(k) && i < |rows|
    ensures TorchRows(k, s, rows, signs)[i] == Blocks(k, s, Times(rows[i], signs))
    decreases |rows|
  {
    hide Blocks, Times, Pow2, TorchRows;
    TorchRowsStep(k, s, q, rows, signs);
    if i < |rows| - 1 {
      RowsAreRotated(k, s, q, rows[..|rows| - 1], signs, i);
    }
  }

  lemma {:induction false} BlockAt(k: nat, s: real, x: Vec, b: nat)
    requires (b + 1) * Pow2(k) <= |x|
    ensures 0 <= b * Pow2(k) < (b + 1) * Pow2(k)
    ensures Blocks(k, s, x)[b * Pow2(k)] == Scale(s, Fwht(k, x[b * Pow2(k)..(b + 1) * Pow2(k)]))[0]
    decreases b
  {
    hide Fwht, Scale, Pow2, Blocks;
    var n := Pow2(k);
    OneRow(b + 1, n);
    assert 0 <= b * n;
    BlocksStep(k, s, x);
    if b > 0 {
      OneRow(b, n);
      BlockAt(k, s, x[n..], b - 1);
      assert x[n..][(b - 1) * n..b * n] == x[b * n..(b + 1) * n];
    } else {
      assert x[0..n] == x[..n];
    }
  }

  /** The transform of a unit vector begins with an entry of the matrix; of zero, with zero. */
  lemma FwhtOfUnit(k: nat, r: nat)
    ensures var first := Fwht(k, Unit(Pow2(k), r))[0];
            if r < Pow2(k) then first == 1.0 || first == -1.0 else first == 0.0
  {
    hide Fwht, Sylvester, Dot;
    var x := Unit(Pow2(k), r);
    MatrixIsFast(k, x);
    DotUnit(Pow2(k), r, Column(Sylvester(k), 0));
    if r < Pow2(k) {
      SylvesterIsSymmetric(k, r, 0);
    }
  }

  /** Rows that the signs turn into a given list of numbers. */
  function RowsOf(signs: Vec, n: nat, f: Vec): (rows: seq<Vec>)
    requires |f| == n * |signs|
    ensures |rows| == n && AllRows(rows, |signs|)
  {
    var cut := Cut(|signs|, n, f);
    seq(n, i requires 0 <= i < n => Times(cut[i], signs))
  }

  lemma {:induction false} FlatOfRows(signs: Vec, n: nat, f: Vec)
    requires |f| == n * |signs| && Signs(signs)
    ensures Flat(RowsOf(signs, n, f), signs) == f
  {
    if n > 0 {
      hide RowsOf, Flat, Signs;
      LastRowOf(signs, n, f);
      FlatOfRows(signs, n - 1, f[..|f| - |signs|]);
    }
  }

  lemma FlatStep(rows: seq<Vec>, signs: Vec)
    requires rows != [] && AllRows(rows, |signs|)
    ensures Flat(rows, signs) == Flat(rows[..|rows| - 1], signs) + Times(Last(rows), signs)
  {
    hide Times;
  }

  lemma LastRowOf(signs: Vec, n: nat, f: Vec)
    requires |f| == n * |signs| && n > 0 && Signs(signs)
    ensures |signs| <= |f| && |f| - |signs| == (n - 1) * |signs|
    ensures Flat(RowsOf(signs, n - 1, f[..|f| - |signs|]), signs) == f[..|f| - |signs|] ==>
              Flat(RowsOf(signs, n, f), signs) == f
  {
    hide Times, Signs, Flat;
    OneRow(n, |signs|);
    var rows, front, last := RowsOf(signs, n, f), f[..|f| - |signs|], f[|f| - |signs|..];
    assert Last(rows) == Times(last, signs);
    assert rows[..n - 1] == RowsOf(signs, n - 1, front);
    FlatStep(rows, signs);
    SignsTwice(last, signs);
    assert front + last == f;
  }

  lemma {:induction false} FirstRow(width: nat, n: nat, out: Vec)
    requires |out| == n * width && n > 0
    ensures width <= |out| && Cut(width, n, out)[0] == out[..width]
  {
    OneRow(n, width);
    if n > 1 {
      OneRow(n - 1, width);
      FirstRow(width, n - 1, out[..|out| - width]);
      assert out[..|out| - width][..width] == out[..width];
    } else {
      assert out[0..] == out[..width];
    }
  }

  lemma Quotient(x: nat, d: nat)
    requires d > 0
    ensures x == (x / d) * d + x % d && 0 <= x % d < d && 0 <= x / d
  {
  }

  lemma Multiples(a: nat, b: nat, d: nat)
    ensures (a + 1) * d == a * d + d && a * d >= 0
    ensures a <= b ==> a * d <= b * d
    ensures a * d < b * d ==> a < b
  {
    if b <= a {
      MulMono(b, a, d);
    } else {
      MulMono(a, b, d);
    }
  }

  lemma MulMono(a: nat, b: nat, d: nat)
    requires a <= b
    ensures a * d <= b * d
  {
  }

  /** The block that holds the end of the first row and the begin of the second. */
  lemma Straddles(width: nat, n: nat, block: nat) returns (b: nat)
    requires block > 0 && width % block != 0 && n > 0 && (n * width) % block == 0
    ensures 0 <= b * block < width < (b + 1) * block <= n * width
  {
    b := width / block;
    var size := n * width;
    var q := size / block;
    Quotient(width, block);
    Quotient(size, block);
    assert n > 1 by {
      assert n == 1 ==> size == width;
    }
    Multiples(2, n, width);
    Multiples(1, n, width);
    Multiples(b, q, block);
    Multiples(b + 1, q, block);
  }

  lemma UnitSlice(n: nat, i: nat, lo: nat, hi: nat)
    requires lo <= hi <= n && (lo <= i < hi || i >= n)
    ensures Unit(n, i)[lo..hi] == Unit(hi - lo, if i >= n then hi - lo else i - lo)
  {
  }

  /** A change in the second row reaches the first. */
  lemma RowsMix(k: nat, s: real, signs: Vec, n: nat) returns (rows: seq<Vec>, rows': seq<Vec>)
    requires s != 0.0 && Signs(signs) && n > 0
    requires |signs| % Pow2(k) != 0 && (n * |signs|) % Pow2(k) == 0
    ensures |rows| == |rows'| == n && AllRows(rows, |signs|) && AllRows(rows', |signs|) && rows[0] == rows'[0]
    ensures TorchRows(k, s, rows, signs)[0] != TorchRows(k, s, rows', signs)[0]
  {
    hide Signs, Blocks, Fwht, Scale, Mul, Pow2, Flat, Cut, Unit;
    var width, block := |signs|, Pow2(k);
    var size := n * width;
    var b := Straddles(width, n, block);
    var lo, hi := b * block, (b + 1) * block;
    var f, f' := Unit(size, size), Unit(size, width);
    rows, rows' := RowsOf(signs, n, f), RowsOf(signs, n, f');
    FlatOfRows(signs, n, f);
    FlatOfRows(signs, n, f');
    FirstRow(width, n, f);
    FirstRow(width, n, f');
    SameStart(size, width);
    FirstRow(width, n, Blocks(k, s, f));
    FirstRow(width, n, Blocks(k, s, f'));
    BlockAt(k, s, f, b);
    BlockAt(k, s, f', b);
    assert hi - lo == block by {
      OneRow(b + 1, block);
    }
    UnitSlice(size, size, lo, hi);
    UnitSlice(size, width, lo, hi);
    FwhtOfUnit(k, block);
    FwhtOfUnit(k, width - lo);
    ScaledFirst(s, Fwht(k, f[lo..hi]));
    ScaledFirst(s, Fwht(k, f'[lo..hi]));
    assert Blocks(k, s, f)[..width][lo] != Blocks(k, s, f')[..width][lo];
  }

  lemma SameStart(size: nat, width: nat)
    requires width <= size
    ensures Unit(size, size)[..width] == Unit(size, width)[..width]
  {
  }

  lemma ScaledFirst(s: real, x: Vec)
    requires x != []
    ensures x[0] == 0.0 ==> Scale(s, x)[0] == 0.0
    ensures x[0] == 1.0 || x[0] == -1.0 ==> Scale(s, x)[0] == s || Scale(s, x)[0] == -s
  {
  }

  /** A row's result depends on that row alone. */
  ghost predicate RowsApart(k: nat, s: real, signs: Vec, n: nat) {
    forall rows, rows', i | |rows| == |rows'| == n && AllRows(rows, |signs|) && AllRows(rows', |signs|) && 0 <= i < n ::
      rows[i] == rows'[i] ==> TorchRows(k, s, rows, signs)[i] == TorchRows(k, s, rows', signs)[i]
  }

  /** The tensor code never looks at the width. For shapes it accepts, rows stay apart exactly when the block
    * divides the width, and then each is what the rotation makes of it; otherwise rows are mixed silently. */
  lemma RowsApartIff(k: nat, s: real, signs: Vec, n: nat)
    requires s != 0.0 && Signs(signs) && n > 0 && (n * |signs|) % Pow2(k) == 0
    ensures RowsApart(k, s, signs, n) <==> |signs| % Pow2(k) == 0
    ensures |signs| % Pow2(k) == 0 ==>
              forall rows, i | |rows| == n && AllRows(rows, |signs|) && 0 <= i < n ::
                Rotate(rows[i], k, s, signs, false) == Ok(TorchRows(k, s, rows, signs)[i])
  {
    hide Signs, TorchRows, Blocks, Pow2, Times;
    var block := Pow2(k);
    if |signs| % block == 0 {
      var q := |signs| / block;
      assert |signs| == q * block;
      forall rows, i: nat | |rows| == n && AllRows(rows, |signs|) && 0 <= i < n
        ensures TorchRows(k, s, rows, signs)[i] == Blocks(k, s, Times(rows[i], signs))
      {
        RowsAreRotated(k, s, q, rows, signs, i);
      }
    } else {
      var rows, rows' := RowsMix(k, s, signs, n);
    }
  }

  /** For example two rows of three values in blocks of two: nothing fails, and the first value of the second
    * row ends up in the first row. */
  lemma TwoRowsOfThree(s: real)
    ensures TorchRows(1, s, [[0.0, 0.0, 0.0], [1.0, 0.0, 0.0]], [1.0, 1.0, 1.0])[0] == [0.0, 0.0, s]
  {
    var rows: seq<Vec>, signs: Vec := [[0.0, 0.0, 0.0], [1.0, 0.0, 0.0]], [1.0, 1.0, 1.0];
    var flat := [0.0, 0.0, 0.0, 1.0, 0.0, 0.0];
    assert rows[..1] == [[0.0, 0.0, 0.0]];
    assert Flat(rows[..1], signs) == [0.0, 0.0, 0.0];
    assert Flat(rows, signs) == flat;
    FirstRow(3, 2, Blocks(1, s, flat));
    TwoBlocks(s);
  }

  lemma TwoBlocks(s: real)
    ensures Blocks(1, s, [0.0, 0.0, 0.0, 1.0, 0.0, 0.0])[..3] == [0.0, 0.0, s]
  {
    assert Pow2(0) == 1 && Pow2(1) == 2;
    PairOfValues(s, 0.0, 0.0);
    PairOfValues(s, 0.0, 1.0);
    BlocksStep(1, s, [0.0, 0.0, 0.0, 1.0, 0.0, 0.0]);
    BlocksStep(1, s, [0.0, 1.0, 0.0, 0.0]);
    hide Blocks, Fwht, Scale;
    assert [0.0, 0.0, 0.0, 1.0, 0.0, 0.0][2..] == [0.0, 1.0, 0.0, 0.0];
    assert [0.0, 0.0, 0.0, 1.0, 0.0, 0.0][..2] == [0.0, 0.0] && [0.0, 1.0, 0.0, 0.0][..2] == [0.0, 1.0];
  }

  lemma PairOfValues(s: real, a: real, b: real)
    ensures Pow2(1) == 2 && Scale(s, Fwht(1, [a, b])) == [Mul(s, a + b), Mul(s, a - b)]
  {
    assert Pow2(0) == 1 && Pow2(1) == 2;
    assert [a, b][..1] == [a] && [a, b][1..] == [b];
  }

  lemma BlocksOfNothing(k: nat, s: real)
    ensures Blocks(k, s, []) == []
  {
  }

  lemma BlocksStep(k: nat, s: real, x: Vec)
    requires |x| >= Pow2(k)
    ensures Blocks(k, s, x) == Scale(s, Fwht(k, x[..Pow2(k)])) + Blocks(k, s, x[Pow2(k)..])
  {
  }

  lemma OneRow(rows: nat, block: nat)
    requires rows > 0
    ensures rows * block >= block && (rows - 1) * block == rows * block - block
  {
    assert (rows - 1) * block == rows * block - block;
  }
}
