/** Totals over a body: the mass-weighted sums that the balance laws speak about. */
module Sums {
  import opened Model

  ghost function Sum(f: Point -> real, b: seq<Point>): real {
    if |b| == 0 then 0.0 else Sum(f, b[..|b| - 1]) + f(b[|b| - 1])
  }

  /** Mass moments: the totals are total mass times the centre of mass. */
  ghost function MomentX(p: Point): real { p.m * p.x }
  ghost function MomentY(p: Point): real { p.m * p.y }

  /** Momenta, with one frame as the unit of time. */
  ghost function MomentumX(p: Point): real { p.m * (p.x - p.ox) }
  ghost function MomentumY(p: Point): real { p.m * (p.y - p.oy) }

  function Energy(m: real, vx: real, vy: real): real {
    0.5 * m * (vx * vx + vy * vy)
  }

  function Kinetic(p: Point): real {
    Energy(p.m, p.x - p.ox, p.y - p.oy)
  }

  lemma Distribute(k: real, a: real, b: real)
    ensures k * (a + b) == k * a + k * b
  {
  }

  lemma AddBounds(x: real, y: real, k: real, a: real, b: real)
    requires Abs(x) <= k * a && Abs(y) <= k * b
    ensures Abs(x + y) <= k * (a + b)
  {
    Distribute(k, a, b);
  }

  lemma {:induction false} SumUpdate(f: Point -> real, b: seq<Point>, i: nat, p: Point)
    requires i < |b|
    ensures Sum(f, b[i := p]) == Sum(f, b) - f(b[i]) + f(p)
  {
    var n := |b| - 1;
    if i == n {
      assert b[i := p][..n] == b[..n];
    } else {
      assert b[i := p][..n] == b[..n][i := p];
      SumUpdate(f, b[..n], i, p);
    }
  }

  lemma {:induction false} SumPointwise(f: Point -> real, b: seq<Point>, g: Point -> real, c: seq<Point>)
    requires |b| == |c|
    requires forall i | 0 <= i < |b| :: f(b[i]) == g(c[i])
    ensures Sum(f, b) == Sum(g, c)
  {
    if |b| > 0 {
      var n := |b| - 1;
      assert forall i | 0 <= i < n :: b[..n][i] == b[i] && c[..n][i] == c[i];
      SumPointwise(f, b[..n], g, c[..n]);
    }
  }

  lemma {:induction false} SumBound(f: Point -> real, b: seq<Point>, g: Point -> real, c: seq<Point>, k: real)
    requires |b| == |c|
    requires forall i | 0 <= i < |b| :: f(b[i]) <= k * g(c[i])
    ensures Sum(f, b) <= k * Sum(g, c)
  {
    if |b| > 0 {
      var n := |b| - 1;
      assert forall i | 0 <= i < n :: b[..n][i] == b[i] && c[..n][i] == c[i];
      SumBound(f, b[..n], g, c[..n], k);
      Distribute(k, Sum(g, c[..n]), g(c[n]));
    }
  }

  lemma {:induction false} SumAbsBound(f: Point -> real, g: Point -> real, b: seq<Point>, k: real)
    requires forall i | 0 <= i < |b| :: Abs(f(b[i])) <= k * g(b[i])
    ensures Abs(Sum(f, b)) <= k * Sum(g, b)
  {
    if |b| == 0 {
      assert k * 0.0 == 0.0;
    } else {
      var n := |b| - 1;
      assert forall i | 0 <= i < n :: b[..n][i] == b[i];
      SumAbsBound(f, g, b[..n], k);
      AddBounds(Sum(f, b[..n]), f(b[n]), k, Sum(g, b[..n]), g(b[n]));
    }
  }

  lemma {:induction false} SumMinus(f: Point -> real, a: seq<Point>, g: Point -> real, l: Point -> real, b: seq<Point>)
    requires |a| == |b| && forall i | 0 <= i < |b| :: f(a[i]) == g(b[i]) - l(b[i])
    ensures Sum(f, a) == Sum(g, b) - Sum(l, b)
  {
    if |b| > 0 {
      var n := |b| - 1;
      assert forall i | 0 <= i < n :: a[..n][i] == a[i] && b[..n][i] == b[i];
      SumMinus(f, a[..n], g, l, b[..n]);
    }
  }

  lemma {:induction false} SumPlusMinus(f: Point -> real, a: seq<Point>,
                                        g: Point -> real, k: Point -> real, l: Point -> real, b: seq<Point>)
    requires |a| == |b| && forall i | 0 <= i < |b| :: f(a[i]) == g(b[i]) + k(b[i]) - l(b[i])
    ensures Sum(f, a) == Sum(g, b) + Sum(k, b) - Sum(l, b)
  {
    if |b| > 0 {
      var n := |b| - 1;
      assert forall i | 0 <= i < n :: a[..n][i] == a[i] && b[..n][i] == b[i];
      SumPlusMinus(f, a[..n], g, k, l, b[..n]);
    }
  }

  lemma {:induction false} SumOfNine(f: Point -> real, b: seq<Point>)
    requires |b| == 9
    ensures Sum(f, b) == f(b[0]) + f(b[1]) + f(b[2]) + f(b[3]) + f(b[4]) + f(b[5]) + f(b[6]) + f(b[7]) + f(b[8])
  {
    SumOfFour(f, b[..4]);
    assert b[..5][..4] == b[..4] && b[..6][..5] == b[..5] && b[..7][..6] == b[..6] && b[..8][..7] == b[..7];
    assert Sum(f, b[..5]) == Sum(f, b[..4]) + f(b[4]);
    assert Sum(f, b[..6]) == Sum(f, b[..5]) + f(b[5]);
    assert Sum(f, b[..7]) == Sum(f, b[..6]) + f(b[6]);
    assert Sum(f, b[..8]) == Sum(f, b[..7]) + f(b[7]);
  }

  lemma {:induction false} SumOfFour(f: Point -> real, b: seq<Point>)
    requires |b| == 4
    ensures Sum(f, b) == f(b[0]) + f(b[1]) + f(b[2]) + f(b[3])
  {
    assert b[..2][..1] == b[..1] && b[..3][..2] == b[..2];
    assert b[..1][..0] == [];
    assert Sum(f, b[..1]) == f(b[0]);
    assert Sum(f, b[..2]) == Sum(f, b[..1]) + f(b[1]);
    assert Sum(f, b[..3]) == Sum(f, b[..2]) + f(b[2]);
  }
}
