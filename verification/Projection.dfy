/** Why the solver's mass split is the right one: a projection is the cheapest way, in
    mass-weighted squared displacement, of placing two distinct joints at rest length,
    and the only way that cheap. */
module Projection {
  import opened Algebra
  import opened Model
  import opened Solver

  /** Mass-weighted squared displacement of moving p to (ux, uy) and q to (vx, vy). */
  ghost function Cost(p: Point, q: Point, ux: real, uy: real, vx: real, vy: real): real {
    p.m * ((ux - p.x) * (ux - p.x) + (uy - p.y) * (uy - p.y))
    + q.m * ((vx - q.x) * (vx - q.x) + (vy - q.y) * (vy - q.y))
  }

  ghost function ProjectionCost(h: Metric, p: Point, q: Point, rest: real): real {
    var p', q' := FirstMoved(h, p, q, rest), SecondMoved(h, p, q, rest);
    Cost(p, q, p'.x, p'.y, q'.x, q'.y)
  }

  /** In one coordinate: weighted squares split into a common and a relative part. */
  lemma MassSplit(m: real, n: real, a: real, b: real)
    ensures (m + n) * (m * (a * a) + n * (b * b)) == (m * a + n * b) * (m * a + n * b) + m * n * ((b - a) * (b - a))
  {
    var aa, bb, ab := a * a, b * b, a * b;
    assert (m + n) * (m * aa + n * bb) == m * m * aa + m * n * bb + m * n * aa + n * n * bb;
    assert (m * a + n * b) * (m * a + n * b) == m * m * aa + 2.0 * (m * n * ab) + n * n * bb;
    assert (b - a) * (b - a) == bb - 2.0 * ab + aa;
    assert m * n * (bb - 2.0 * ab + aa) == m * n * bb - 2.0 * (m * n * ab) + m * n * aa;
  }

  /** The part of a placement's cost spent on moving the common centre of mass, and the part
      spent on changing the separation. */
  ghost function CentreShift(p: Point, q: Point, ux: real, uy: real, vx: real, vy: real): real {
    var gx, gy := p.m * (ux - p.x) + q.m * (vx - q.x), p.m * (uy - p.y) + q.m * (vy - q.y);
    gx * gx + gy * gy
  }

  ghost function Stretch(p: Point, q: Point, ux: real, uy: real, vx: real, vy: real): real {
    var sx, sy := (vx - q.x) - (ux - p.x), (vy - q.y) - (uy - p.y);
    sx * sx + sy * sy
  }

  lemma CostSplit(p: Point, q: Point, ux: real, uy: real, vx: real, vy: real)
    ensures (p.m + q.m) * Cost(p, q, ux, uy, vx, vy)
            == CentreShift(p, q, ux, uy, vx, vy) + p.m * q.m * Stretch(p, q, ux, uy, vx, vy)
  {
    MassSplit(p.m, q.m, ux - p.x, vx - q.x);
    MassSplit(p.m, q.m, uy - p.y, vy - q.y);
  }

  ghost predicate Placed(ux: real, uy: real, vx: real, vy: real, rest: real) {
    (vx - ux) * (vx - ux) + (vy - uy) * (vy - uy) == rest * rest
  }

  /** How far the placement's separation is from pointing along the original one. */
  ghost function Slack(p: Point, q: Point, dist: real, rest: real, ux: real, uy: real, vx: real, vy: real): real {
    rest * dist - ((vx - ux) * (q.x - p.x) + (vy - uy) * (q.y - p.y))
  }

  lemma DotBound(ax: real, ay: real, cx: real, cy: real, r: real, s: real)
    requires r >= 0.0 && s >= 0.0 && ax * ax + ay * ay == r * r && cx * cx + cy * cy == s * s
    ensures ax * cx + ay * cy <= r * s
  {
    var dot, cross := ax * cx + ay * cy, ax * cy - ay * cx;
    assert dot * dot + cross * cross == (ax * ax + ay * ay) * (cx * cx + cy * cy);
    assert (r * r) * (s * s) == (r * s) * (r * s);
    SquareSign(cross, cross * cross);
    NonNegativeProduct(r, s, r * s);
    RootLe(dot, r * s);
  }

  /** No placement at distance rest changes the separation by less than dist - rest. */
  lemma StretchBound(p: Point, q: Point, dist: real, rest: real, ux: real, uy: real, vx: real, vy: real)
    requires dist >= 0.0 && rest >= 0.0 && SepSq(p, q) == dist * dist
    requires Placed(ux, uy, vx, vy, rest)
    ensures var slack := Slack(p, q, dist, rest, ux, uy, vx, vy);
            slack >= 0.0 && Stretch(p, q, ux, uy, vx, vy) == (dist - rest) * (dist - rest) + 2.0 * slack
  {
    DotBound(vx - ux, vy - uy, q.x - p.x, q.y - p.y, rest, dist);
    SquareOfDifference(vx - ux, q.x - p.x);
    SquareOfDifference(vy - uy, q.y - p.y);
    SquareOfDifference(dist, rest);
  }

  lemma SquareOfDifference(a: real, b: real)
    ensures (a - b) * (a - b) == a * a - 2.0 * (a * b) + b * b
  {
  }

  lemma ProjectionKeepsCentre(h: Metric, p: Point, q: Point, rest: real)
    ensures var p', q' := FirstMoved(h, p, q, rest), SecondMoved(h, p, q, rest);
            CentreShift(p, q, p'.x, p'.y, q'.x, q'.y) == 0.0
  {
    hide FirstMoved, SecondMoved, Excess;
    PairFacts(h, p, q, rest);
  }

  lemma ProjectionIsAligned(h: Metric, p: Point, q: Point, rest: real)
    ensures var p', q' := FirstMoved(h, p, q, rest), SecondMoved(h, p, q, rest);
            var d := Length(h, q.x - p.x, q.y - p.y);
            d * (q'.x - p'.x) == rest * (q.x - p.x) && d * (q'.y - p'.y) == rest * (q.y - p.y)
  {
    var d, k := Length(h, q.x - p.x, q.y - p.y), 1.0 - Excess(h, p, q, rest);
    hide FirstMoved, SecondMoved, Excess, Length;
    PairFacts(h, p, q, rest);
    ExcessMeaning(h, p, q, rest);
    Regroup(d, q.x - p.x, k, rest);
    Regroup(d, q.y - p.y, k, rest);
  }

  lemma Regroup(d: real, x: real, k: real, r: real)
    requires d * k == r
    ensures d * (x * k) == r * x
  {
  }

  lemma StretchOfRescaling(p: Point, q: Point, p': Point, q': Point, d: real, k: real, rest: real)
    requires q'.x - p'.x == (q.x - p.x) * k && q'.y - p'.y == (q.y - p.y) * k
    requires d * d == SepSq(p, q) && d * k == rest
    ensures Stretch(p, q, p'.x, p'.y, q'.x, q'.y) == (d - rest) * (d - rest)
  {
    ScaledSquare(q.x - p.x, q.y - p.y, d, k - 1.0, rest - d);
  }

  lemma ProjectionStretch(h: Metric, p: Point, q: Point, rest: real)
    requires IsHypot(h) && !Coincide(p, q)
    ensures var p', q' := FirstMoved(h, p, q, rest), SecondMoved(h, p, q, rest);
            var d := h(q.x - p.x, q.y - p.y);
            Stretch(p, q, p'.x, p'.y, q'.x, q'.y) == (d - rest) * (d - rest)
  {
    hide FirstMoved, SecondMoved, Excess, Length, Stretch, IsHypot, SepSq;
    PairFacts(h, p, q, rest);
    LengthMeaning(h, p, q);
    ExcessMeaning(h, p, q, rest);
    StretchOfRescaling(p, q, FirstMoved(h, p, q, rest), SecondMoved(h, p, q, rest),
                       Length(h, q.x - p.x, q.y - p.y), 1.0 - Excess(h, p, q, rest), rest);
  }

  lemma CostAtFixedCentre(p: Point, q: Point, p': Point, q': Point, s: real)
    requires CentreShift(p, q, p'.x, p'.y, q'.x, q'.y) == 0.0 && Stretch(p, q, p'.x, p'.y, q'.x, q'.y) == s
    ensures (p.m + q.m) * Cost(p, q, p'.x, p'.y, q'.x, q'.y) == p.m * q.m * s
    ensures Cost(p, q, p'.x, p'.y, q'.x, q'.y) == (p.m * q.m / (p.m + q.m)) * s
  {
    hide Cost, CentreShift, Stretch;
    CostSplit(p, q, p'.x, p'.y, q'.x, q'.y);
    DivideOut(p.m + q.m, Cost(p, q, p'.x, p'.y, q'.x, q'.y), p.m * q.m, s);
  }

  /** What the projection costs: the reduced mass times the squared error. */
  lemma ProjectionCostValue(h: Metric, p: Point, q: Point, rest: real)
    requires IsHypot(h) && !Coincide(p, q)
    ensures var d := h(q.x - p.x, q.y - p.y);
            && (p.m + q.m) * ProjectionCost(h, p, q, rest) == p.m * q.m * ((d - rest) * (d - rest))
            && ProjectionCost(h, p, q, rest) == (p.m * q.m / (p.m + q.m)) * ((d - rest) * (d - rest))
  {
    hide Cost, CentreShift, Stretch, FirstMoved, SecondMoved;
    var d := h(q.x - p.x, q.y - p.y);
    ProjectionKeepsCentre(h, p, q, rest);
    ProjectionStretch(h, p, q, rest);
    CostAtFixedCentre(p, q, FirstMoved(h, p, q, rest), SecondMoved(h, p, q, rest), (d - rest) * (d - rest));
  }

  lemma DivideOut(t: real, c: real, m: real, s: real)
    requires t > 0.0 && t * c == m * s
    ensures c == (m / t) * s
  {
    assert t * ((m / t) * s) == m * s;
    assert t * (c - (m / t) * s) == 0.0;
  }

  /** How much dearer any other placement at rest length is. */
  lemma CostGap(h: Metric, p: Point, q: Point, rest: real, ux: real, uy: real, vx: real, vy: real)
    requires IsHypot(h) && !Coincide(p, q) && rest >= 0.0
    requires Placed(ux, uy, vx, vy, rest)
    ensures var slack := Slack(p, q, h(q.x - p.x, q.y - p.y), rest, ux, uy, vx, vy);
            && slack >= 0.0
            && (p.m + q.m) * (Cost(p, q, ux, uy, vx, vy) - ProjectionCost(h, p, q, rest))
               == CentreShift(p, q, ux, uy, vx, vy) + 2.0 * (p.m * q.m) * slack
  {
    hide Cost, ProjectionCost, CentreShift, Stretch, Length, Placed, Slack;
    var d := h(q.x - p.x, q.y - p.y);
    LengthMeaning(h, p, q);
    StretchBound(p, q, d, rest, ux, uy, vx, vy);
    CostSplit(p, q, ux, uy, vx, vy);
    ProjectionCostValue(h, p, q, rest);
    var slack := Slack(p, q, d, rest, ux, uy, vx, vy);
    GapAlgebra(p.m + q.m, Cost(p, q, ux, uy, vx, vy), ProjectionCost(h, p, q, rest),
               CentreShift(p, q, ux, uy, vx, vy), p.m * q.m, (d - rest) * (d - rest), slack);
  }

  lemma GapAlgebra(t: real, c: real, c0: real, g: real, mn: real, s: real, slack: real)
    requires t * c == g + mn * (s + 2.0 * slack) && t * c0 == mn * s
    ensures t * (c - c0) == g + 2.0 * mn * slack
  {
  }

  lemma CentreShiftSign(p: Point, q: Point, ux: real, uy: real, vx: real, vy: real)
    ensures CentreShift(p, q, ux, uy, vx, vy) >= 0.0
    ensures CentreShift(p, q, ux, uy, vx, vy) == 0.0 ==>
              && p.m * (ux - p.x) + q.m * (vx - q.x) == 0.0
              && p.m * (uy - p.y) + q.m * (vy - q.y) == 0.0
  {
    var gx, gy := p.m * (ux - p.x) + q.m * (vx - q.x), p.m * (uy - p.y) + q.m * (vy - q.y);
    SquareSign(gx, gx * gx);
    SquareSign(gy, gy * gy);
  }

  /** A vector of length rest whose dot product with (dx, dy) is rest * d points along it. */
  lemma AlignedWhenTight(wx: real, wy: real, dx: real, dy: real, d: real, rest: real)
    requires wx * wx + wy * wy == rest * rest && dx * dx + dy * dy == d * d
    requires wx * dx + wy * dy == rest * d
    ensures d * wx == rest * dx && d * wy == rest * dy
  {
    var ex, ey := d * wx - rest * dx, d * wy - rest * dy;
    calc {
      ex * ex + ey * ey;
      (d * d) * (wx * wx + wy * wy) - 2.0 * (d * rest) * (wx * dx + wy * dy) + (rest * rest) * (dx * dx + dy * dy);
      (d * d) * (rest * rest) - 2.0 * (d * rest) * (rest * d) + (rest * rest) * (d * d);
      0.0;
    }
    SquaresZero(ex, ey);
  }

  /** A pair with a given separation and a given weighted sum of moves is determined. */
  lemma Pinned(m: Mass, n: Mass, p: real, q: real, u: real, v: real, u': real, v': real)
    requires m * (u - p) + n * (v - q) == 0.0 && m * (u' - p) + n * (v' - q) == 0.0
    requires v - u == v' - u'
    ensures u == u' && v == v'
  {
    assert (m + n) * (u - u') == 0.0;
  }

  lemma CancelFactor(d: real, a: real, b: real)
    requires d != 0.0 && d * a == d * b
    ensures a == b
  {
    assert d * (a - b) == 0.0;
  }

  lemma Determined(p: Point, q: Point, p': Point, q': Point, d: real, rest: real,
                   ux: real, uy: real, vx: real, vy: real)
    requires d != 0.0 && d * (vx - ux) == rest * (q.x - p.x) && d * (vy - uy) == rest * (q.y - p.y)
    requires d * (q'.x - p'.x) == rest * (q.x - p.x) && d * (q'.y - p'.y) == rest * (q.y - p.y)
    requires p.m * (ux - p.x) + q.m * (vx - q.x) == 0.0 && p.m * (uy - p.y) + q.m * (vy - q.y) == 0.0
    requires p.m * (p'.x - p.x) + q.m * (q'.x - q.x) == 0.0 && p.m * (p'.y - p.y) + q.m * (q'.y - q.y) == 0.0
    ensures ux == p'.x && uy == p'.y && vx == q'.x && vy == q'.y
  {
    CancelFactor(d, vx - ux, q'.x - p'.x);
    CancelFactor(d, vy - uy, q'.y - p'.y);
    Pinned(p.m, q.m, p.x, q.x, ux, vx, p'.x, q'.x);
    Pinned(p.m, q.m, p.y, q.y, uy, vy, p'.y, q'.y);
  }

  lemma OnlyPlacement(h: Metric, p: Point, q: Point, rest: real, ux: real, uy: real, vx: real, vy: real)
    requires IsHypot(h) && !Coincide(p, q) && rest >= 0.0
    requires Placed(ux, uy, vx, vy, rest)
    requires CentreShift(p, q, ux, uy, vx, vy) == 0.0
    requires Slack(p, q, h(q.x - p.x, q.y - p.y), rest, ux, uy, vx, vy) == 0.0
    ensures var p', q' := FirstMoved(h, p, q, rest), SecondMoved(h, p, q, rest);
            ux == p'.x && uy == p'.y && vx == q'.x && vy == q'.y
  {
    hide CentreShift, FirstMoved, SecondMoved, Length, Excess, Placed, Slack;
    var d := Length(h, q.x - p.x, q.y - p.y);
    LengthMeaning(h, p, q);
    TightPlacement(p, q, d, rest, ux, uy, vx, vy);
    ProjectionIsAligned(h, p, q, rest);
    CentreShiftSign(p, q, ux, uy, vx, vy);
    PairFacts(h, p, q, rest);
    Determined(p, q, FirstMoved(h, p, q, rest), SecondMoved(h, p, q, rest), d, rest, ux, uy, vx, vy);
  }

  lemma TightPlacement(p: Point, q: Point, d: real, rest: real, ux: real, uy: real, vx: real, vy: real)
    requires SepSq(p, q) == d * d && Placed(ux, uy, vx, vy, rest) && Slack(p, q, d, rest, ux, uy, vx, vy) == 0.0
    ensures d * (vx - ux) == rest * (q.x - p.x) && d * (vy - uy) == rest * (q.y - p.y)
  {
    AlignedWhenTight(vx - ux, vy - uy, q.x - p.x, q.y - p.y, d, rest);
  }

  /** The projection costs the least over all placements at rest length, and only its own
      placement attains that cost. */
  lemma ProjectionOptimal(h: Metric, p: Point, q: Point, rest: real, ux: real, uy: real, vx: real, vy: real)
    requires IsHypot(h) && !Coincide(p, q) && rest >= 0.0
    requires Placed(ux, uy, vx, vy, rest)
    ensures ProjectionCost(h, p, q, rest) <= Cost(p, q, ux, uy, vx, vy)
    ensures var p', q' := FirstMoved(h, p, q, rest), SecondMoved(h, p, q, rest);
            ProjectionCost(h, p, q, rest) == Cost(p, q, ux, uy, vx, vy)
            <==> (ux == p'.x && uy == p'.y && vx == q'.x && vy == q'.y)
  {
    hide Cost, CentreShift, FirstMoved, SecondMoved, Placed, Slack;
    var slack := Slack(p, q, h(q.x - p.x, q.y - p.y), rest, ux, uy, vx, vy);
    var drift, mn := CentreShift(p, q, ux, uy, vx, vy), p.m * q.m;
    var gap := Cost(p, q, ux, uy, vx, vy) - ProjectionCost(h, p, q, rest);
    CostGap(h, p, q, rest, ux, uy, vx, vy);
    CentreShiftSign(p, q, ux, uy, vx, vy);
    PositiveProduct(p.m, q.m, mn);
    GapSigns(p.m + q.m, gap, drift, mn, slack);
    if gap == 0.0 {
      OnlyPlacement(h, p, q, rest, ux, uy, vx, vy);
    }
  }

  lemma GapSigns(t: real, gap: real, drift: real, mn: real, slack: real)
    requires t > 0.0 && mn > 0.0 && drift >= 0.0 && slack >= 0.0
    requires t * gap == drift + 2.0 * mn * slack
    ensures gap >= 0.0
    ensures gap == 0.0 ==> drift == 0.0 && slack == 0.0
  {
    var e := 2.0 * mn * slack;
    NonNegativeProduct(2.0 * mn, slack, e);
    if slack > 0.0 {
      PositiveProduct(2.0 * mn, slack, e);
    }
    if gap < 0.0 {
      PositiveProduct(t, -gap, -(t * gap));
    }
  }
}
