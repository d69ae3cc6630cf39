/** The affine matrices of the content-stream walker, row-vector convention. */
module Affine {

  datatype Matrix = Matrix(a: real, b: real, c: real, d: real, e: real, f: real)

  datatype Point = Point(x: real, y: real)

  const IDENTITY := Matrix(1.0, 0.0, 0.0, 1.0, 0.0, 0.0)

  function Mul(m: Matrix, n: Matrix): Matrix {
    Matrix(
      m.a * n.a + m.b * n.c,
      m.a * n.b + m.b * n.d,
      m.c * n.a + m.d * n.c,
      m.c * n.b + m.d * n.d,
      m.e * n.a + m.f * n.c + n.e,
      m.e * n.b + m.f * n.d + n.f)
  }

  function Apply(m: Matrix, p: Point): Point {
    Point(m.a * p.x + m.c * p.y + m.e, m.b * p.x + m.d * p.y + m.f)
  }

  function Translation(tx: real, ty: real): Matrix {
    Matrix(1.0, 0.0, 0.0, 1.0, tx, ty)
  }

  ghost predicate Commute(m: Matrix, n: Matrix) {
    Mul(m, n) == Mul(n, m)
  }

  /** A row (x, y) sent through a 2x2 block and then a column (u, v), bracketed both ways. */
  lemma RowTimes(x: real, y: real, p: real, q: real, r: real, s: real, u: real, v: real,
                 left0: real, left1: real, right0: real, right1: real)
    requires left0 == x * p + y * r && left1 == x * q + y * s
    requires right0 == p * u + q * v && right1 == r * u + s * v
    ensures left0 * u + left1 * v == x * right0 + y * right1
  {
    assert left0 * u == x * (p * u) + y * (r * u);
    assert left1 * v == x * (q * v) + y * (s * v);
    assert x * right0 == x * (p * u) + x * (q * v);
    assert y * right1 == y * (r * u) + y * (s * v);
  }

  lemma LastRow(x: real, y: real, n: Matrix, u: real, v: real, e: real, f: real, right0: real, right1: real)
    requires e == x * n.a + y * n.c + n.e && f == x * n.b + y * n.d + n.f
    requires right0 == n.a * u + n.b * v && right1 == n.c * u + n.d * v
    ensures e * u + f * v == x * right0 + y * right1 + (n.e * u + n.f * v)
  {
    var e', f' := e - n.e, f - n.f;
    RowTimes(x, y, n.a, n.b, n.c, n.d, u, v, e', f', right0, right1);
    assert e * u == e' * u + n.e * u;
    assert f * v == f' * v + n.f * v;
  }

  lemma MulAssociative(m: Matrix, n: Matrix, o: Matrix)
    ensures Mul(Mul(m, n), o) == Mul(m, Mul(n, o))
  {
    AssociativeFirstRow(m, n, o);
    AssociativeSecondRow(m, n, o);
    AssociativeThirdRow(m, n, o);
  }

  lemma AssociativeFirstRow(m: Matrix, n: Matrix, o: Matrix)
    ensures var l, r := Mul(Mul(m, n), o), Mul(m, Mul(n, o)); l.a == r.a && l.b == r.b
  {
    var mn, no := Mul(m, n), Mul(n, o);
    RowTimes(m.a, m.b, n.a, n.b, n.c, n.d, o.a, o.c, mn.a, mn.b, no.a, no.c);
    RowTimes(m.a, m.b, n.a, n.b, n.c, n.d, o.b, o.d, mn.a, mn.b, no.b, no.d);
  }

  lemma AssociativeSecondRow(m: Matrix, n: Matrix, o: Matrix)
    ensures var l, r := Mul(Mul(m, n), o), Mul(m, Mul(n, o)); l.c == r.c && l.d == r.d
  {
    var mn, no := Mul(m, n), Mul(n, o);
    RowTimes(m.c, m.d, n.a, n.b, n.c, n.d, o.a, o.c, mn.c, mn.d, no.a, no.c);
    RowTimes(m.c, m.d, n.a, n.b, n.c, n.d, o.b, o.d, mn.c, mn.d, no.b, no.d);
  }

  lemma AssociativeThirdRow(m: Matrix, n: Matrix, o: Matrix)
    ensures var l, r := Mul(Mul(m, n), o), Mul(m, Mul(n, o)); l.e == r.e && l.f == r.f
  {
    var mn, no := Mul(m, n), Mul(n, o);
    LastRow(m.e, m.f, n, o.a, o.c, mn.e, mn.f, no.a, no.c);
    LastRow(m.e, m.f, n, o.b, o.d, mn.e, mn.f, no.b, no.d);
  }

  lemma MulIdentity(m: Matrix)
    ensures Mul(m, IDENTITY) == m == Mul(IDENTITY, m)
  {
  }

  /** Multiplying on the right means applying afterwards. */
  lemma ApplyMul(m: Matrix, n: Matrix, p: Point)
    ensures Apply(Mul(m, n), p) == Apply(n, Apply(m, p))
  {
    hide Mul, Apply;
    ApplyMulX(m, n, p);
    ApplyMulY(m, n, p);
  }

  lemma ApplyMulX(m: Matrix, n: Matrix, p: Point)
    ensures Apply(Mul(m, n), p).x == Apply(n, Apply(m, p)).x
  {
    var q, mn := Apply(m, p), Mul(m, n);
    LastRow(p.x, p.y, m, n.a, n.c, q.x, q.y, mn.a, mn.c);
  }

  lemma ApplyMulY(m: Matrix, n: Matrix, p: Point)
    ensures Apply(Mul(m, n), p).y == Apply(n, Apply(m, p)).y
  {
    var q, mn := Apply(m, p), Mul(m, n);
    LastRow(p.x, p.y, m, n.b, n.d, q.x, q.y, mn.b, mn.d);
  }

  // ---- Products of a run of `cm` operands ------------------------------------------------

  /** The walker's order: each new matrix is multiplied on the right. */
  function Product(ds: seq<Matrix>): Matrix {
    if ds == [] then IDENTITY
    else Mul(Product(ds[..|ds| - 1]), ds[|ds| - 1])
  }

  /** The order of section 8.3.4 of ISO 32000-2: each new matrix is multiplied on the left. */
  function StandardProduct(ds: seq<Matrix>): Matrix {
    if ds == [] then IDENTITY
    else Mul(ds[|ds| - 1], StandardProduct(ds[..|ds| - 1]))
  }

  /** Sends a point through the matrices one at a time, the first one first. */
  function Chain(ds: seq<Matrix>, p: Point): Point {
    if ds == [] then p else Chain(ds[1..], Apply(ds[0], p))
  }

  /** The walker's product sends a point through the oldest matrix first. */
  lemma {:induction false} ProductAppliesOldestFirst(ds: seq<Matrix>, p: Point)
    ensures Apply(Product(ds), p) == Chain(ds, p)
  {
    if ds == [] {
    } else {
      var n := |ds| - 1;
      ProductAppliesOldestFirst(ds[..n], p);
      ApplyMul(Product(ds[..n]), ds[n], p);
      ChainSnoc(ds[..n], ds[n], p);
      assert ds[..n] + [ds[n]] == ds;
    }
  }

  lemma {:induction false} ChainSnoc(ds: seq<Matrix>, d: Matrix, p: Point)
    ensures Chain(ds + [d], p) == Apply(d, Chain(ds, p))
  {
    if ds == [] {
      assert (ds + [d])[1..] == [];
    } else {
      assert (ds + [d])[1..] == ds[1..] + [d];
      ChainSnoc(ds[1..], d, Apply(ds[0], p));
    }
  }

  /** The two orders agree after every `cm` of a run exactly when each new matrix commutes
      with the transformation in force when it arrives. */
  lemma {:induction false} OrdersAgreeIff(ds: seq<Matrix>)
    ensures (forall n :: 0 <= n <= |ds| ==> Product(ds[..n]) == StandardProduct(ds[..n]))
       <==> (forall n :: 0 <= n < |ds| ==> Commute(Product(ds[..n]), ds[n]))
  {
    forall n | 0 <= n < |ds| && Product(ds[..n]) == StandardProduct(ds[..n])
      ensures Product(ds[..n + 1]) == StandardProduct(ds[..n + 1]) <==> Commute(Product(ds[..n]), ds[n])
    {
      assert ds[..n + 1][..n] == ds[..n] && ds[..n + 1][n] == ds[n];
    }
    if forall n :: 0 <= n < |ds| ==> Commute(Product(ds[..n]), ds[n]) {
      OrdersAgreeUpTo(ds, |ds|);
    } else if forall n :: 0 <= n <= |ds| ==> Product(ds[..n]) == StandardProduct(ds[..n]) {
      forall n | 0 <= n < |ds| ensures Commute(Product(ds[..n]), ds[n]) {
        assert Product(ds[..n]) == StandardProduct(ds[..n]);
        assert Product(ds[..n + 1]) == StandardProduct(ds[..n + 1]);
      }
    }
  }

  lemma {:induction false} OrdersAgreeUpTo(ds: seq<Matrix>, k: nat)
    requires k <= |ds|
    requires forall n :: 0 <= n < |ds| ==> Commute(Product(ds[..n]), ds[n])
    ensures forall n :: 0 <= n <= k ==> Product(ds[..n]) == StandardProduct(ds[..n])
  {
    if k > 0 {
      OrdersAgreeUpTo(ds, k - 1);
      assert Commute(Product(ds[..k - 1]), ds[k - 1]);
      assert ds[..k][..k - 1] == ds[..k - 1] && ds[..k][k - 1] == ds[k - 1];
    }
  }

  /** A checkable sufficient condition: matrices that commute with each other. */
  lemma {:induction false} CommutingMatricesAgree(ds: seq<Matrix>)
    requires forall i, j :: 0 <= i < j < |ds| ==> Commute(ds[i], ds[j])
    ensures Product(ds) == StandardProduct(ds)
  {
    forall n | 0 <= n < |ds| ensures Commute(Product(ds[..n]), ds[n]) {
      CommutesWithProduct(ds[..n], ds[n]);
    }
    OrdersAgreeUpTo(ds, |ds|);
    assert ds[..|ds|] == ds;
  }

  lemma {:induction false} CommutesWithProduct(ds: seq<Matrix>, d: Matrix)
    requires forall i :: 0 <= i < |ds| ==> Commute(ds[i], d)
    ensures Commute(Product(ds), d)
  {
    if ds == [] {
      MulIdentity(d);
    } else {
      var n := |ds| - 1;
      var p := Product(ds[..n]);
      CommutesWithProduct(ds[..n], d);
      assert Commute(ds[n], d);
      MulAssociative(p, ds[n], d);
      MulAssociative(p, d, ds[n]);
      MulAssociative(d, p, ds[n]);
    }
  }

  lemma TwoMatrices(s: Matrix, t: Matrix)
    ensures Product([s, t]) == Mul(s, t) && StandardProduct([s, t]) == Mul(t, s)
  {
    assert [s, t][..1] == [s] && [s][..0] == [];
    MulIdentity(s);
    assert Product([s]) == s && StandardProduct([s]) == s;
  }

  /** A scaling by k and a move by (tx, ty): the walker moves by (tx, ty), the standard by k times that,
      so the two orders agree exactly when k is one or there is no move. */
  lemma ScaleThenMove(k: real, tx: real, ty: real)
    ensures var s, t := Matrix(k, 0.0, 0.0, k, 0.0, 0.0), Translation(tx, ty);
            && Product([s, t]) == Matrix(k, 0.0, 0.0, k, tx, ty)
            && StandardProduct([s, t]) == Matrix(k, 0.0, 0.0, k, tx * k, ty * k)
            && (Product([s, t]) == StandardProduct([s, t]) <==> k == 1.0 || (tx == 0.0 && ty == 0.0))
  {
    var s, t := Matrix(k, 0.0, 0.0, k, 0.0, 0.0), Translation(tx, ty);
    TwoMatrices(s, t);
    Factor(k, tx);
    Factor(k, ty);
  }

  lemma Factor(k: real, x: real)
    ensures x == x * k <==> k == 1.0 || x == 0.0
  {
    assert x * k - x == x * (k - 1.0);
  }
}
