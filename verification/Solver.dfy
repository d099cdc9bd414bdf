/** The constraint solver: what each projection does to a pair of joints, and what sixty of
    them, each reading what the earlier ones wrote, keep for the whole body. */
module Solver {
  import opened Algebra
  import opened Model
  import opened Sums

  // ---------------------------------------------------------------- one pair

  lemma ShareBalance(m: Mass, n: Mass)
    ensures m * Share(n, m + n) == n * Share(m, m + n)
    ensures Share(n, m + n) + Share(m, m + n) == 1.0
  {
    assert (Share(n, m + n) + Share(m, m + n)) * (m + n) == m + n;
  }

  lemma SplitAlong(m: real, n: real, k: real, l: real, d: real, e: real)
    requires m * k == n * l && k + l == 1.0
    ensures m * (d * k * e) - n * (d * l * e) == 0.0
    ensures d - d * l * e - d * k * e == d * (1.0 - e)
  {
    assert m * (d * k * e) == (m * k) * (d * e) && n * (d * l * e) == (n * l) * (d * e);
    assert d * k * e + d * l * e == d * (k + l) * e;
  }

  /** What a projection does to its pair, whatever the distances: mass times displacement
      cancels, the displacement is along the separation, and the separation is rescaled
      by one minus the excess. */
  lemma PairFacts(h: Metric, p: Point, q: Point, rest: real)
    ensures var p', q' := FirstMoved(h, p, q, rest), SecondMoved(h, p, q, rest);
            var k := 1.0 - Excess(h, p, q, rest);
            && p.m * (p'.x - p.x) + q.m * (q'.x - q.x) == 0.0
            && p.m * (p'.y - p.y) + q.m * (q'.y - q.y) == 0.0
            && (q.x - p.x) * (p'.y - p.y) == (q.y - p.y) * (p'.x - p.x)
            && q'.x - p'.x == (q.x - p.x) * k
            && q'.y - p'.y == (q.y - p.y) * k
  {
    hide Excess, Share;
    var k, l, e := Share(q.m, p.m + q.m), Share(p.m, p.m + q.m), Excess(h, p, q, rest);
    ShareBalance(p.m, q.m);
    SplitAlong(p.m, q.m, k, l, q.x - p.x, e);
    SplitAlong(p.m, q.m, k, l, q.y - p.y, e);
  }

  lemma PairKeepsMoments(h: Metric, p: Point, q: Point, rest: real)
    ensures MomentX(FirstMoved(h, p, q, rest)) + MomentX(SecondMoved(h, p, q, rest)) == MomentX(p) + MomentX(q)
    ensures MomentY(FirstMoved(h, p, q, rest)) + MomentY(SecondMoved(h, p, q, rest)) == MomentY(p) + MomentY(q)
  {
    PairFacts(h, p, q, rest);
    PairKeepsPast(h, p, q, rest);
    hide FirstMoved, SecondMoved, Excess;
  }

  lemma PairKeepsPast(h: Metric, p: Point, q: Point, rest: real)
    ensures var p', q' := FirstMoved(h, p, q, rest), SecondMoved(h, p, q, rest);
            p' == Point(p'.x, p'.y, p.ox, p.oy, p.m) && q' == Point(q'.x, q'.y, q.ox, q.oy, q.m)
  {
  }

  ghost function SepSq(p: Point, q: Point): real {
    (q.x - p.x) * (q.x - p.x) + (q.y - p.y) * (q.y - p.y)
  }

  ghost predicate Coincide(p: Point, q: Point) {
    p.x == q.x && p.y == q.y
  }

  /** The distance read by the solver is zero exactly for coincident joints. */
  lemma LengthMeaning(h: Metric, p: Point, q: Point)
    requires IsHypot(h)
    ensures h(q.x - p.x, q.y - p.y) == 0.0 <==> Coincide(p, q)
    ensures !Coincide(p, q) ==>
              var d := Length(h, q.x - p.x, q.y - p.y);
              d == h(q.x - p.x, q.y - p.y) && d > 0.0 && d * d == SepSq(p, q)
  {
    var d := h(q.x - p.x, q.y - p.y);
    assert d >= 0.0 && d * d == SepSq(p, q);
    if Coincide(p, q) {
      SquaresZero(d, 0.0);
    } else if d == 0.0 {
      SquaresZero(q.x - p.x, q.y - p.y);
    }
  }

  /** A projection puts its pair at rest length if and only if the joints are distinct;
      coincident joints stay where they are. */
  lemma PairExact(h: Metric, p: Point, q: Point, rest: real)
    requires IsHypot(h) && rest > 0.0
    ensures var p', q' := FirstMoved(h, p, q, rest), SecondMoved(h, p, q, rest);
            && (SepSq(p', q') == rest * rest <==> !Coincide(p, q))
            && (Coincide(p, q) ==> p' == p && q' == q && SepSq(p', q') == 0.0)
  {
    if Coincide(p, q) {
      CoincidentStay(h, p, q, rest);
      SquareSign(rest, rest * rest);
    } else {
      DistinctReachRest(h, p, q, rest);
    }
  }

  lemma DistinctReachRest(h: Metric, p: Point, q: Point, rest: real)
    requires IsHypot(h) && !Coincide(p, q)
    ensures SepSq(FirstMoved(h, p, q, rest), SecondMoved(h, p, q, rest)) == rest * rest
  {
    var d, k := Length(h, q.x - p.x, q.y - p.y), 1.0 - Excess(h, p, q, rest);
    hide FirstMoved, SecondMoved, Excess, Length;
    assert d * d == SepSq(p, q) by { LengthMeaning(h, p, q); }
    assert d * k == rest by { ExcessMeaning(h, p, q, rest); }
    PairFacts(h, p, q, rest);
    ScaledSquare(q.x - p.x, q.y - p.y, d, k, rest);
  }

  lemma ExcessMeaning(h: Metric, p: Point, q: Point, rest: real)
    ensures Length(h, q.x - p.x, q.y - p.y) * (1.0 - Excess(h, p, q, rest)) == rest
  {
    var d := Length(h, q.x - p.x, q.y - p.y);
    assert d * ((d - rest) / d) == d - rest;
  }

  lemma CoincidentStay(h: Metric, p: Point, q: Point, rest: real)
    requires Coincide(p, q)
    ensures FirstMoved(h, p, q, rest) == p && SecondMoved(h, p, q, rest) == q && SepSq(p, q) == 0.0
  {
  }

  lemma ScaledSquare(a: real, b: real, d: real, k: real, rest: real)
    requires d * d == a * a + b * b && d * k == rest
    ensures (a * k) * (a * k) + (b * k) * (b * k) == rest * rest
  {
    assert (a * k) * (a * k) + (b * k) * (b * k) == (a * a + b * b) * (k * k);
    assert (d * d) * (k * k) == (d * k) * (d * k);
  }

  // ---------------------------------------------------------------- balance

  /** Same joints, same previous positions: only current positions may differ. */
  ghost predicate SamePast(b: seq<Point>, c: seq<Point>) {
    |b| == |c| && forall i | 0 <= i < |b| :: b[i].ox == c[i].ox && b[i].oy == c[i].oy && b[i].m == c[i].m
  }

  lemma {:induction false} SumOfTwoUpdates(f: Point -> real, b: seq<Point>, i: nat, j: nat, p: Point, q: Point)
    requires i < |b| && j < |b| && i != j && f(p) + f(q) == f(b[i]) + f(b[j])
    ensures Sum(f, b[i := p][j := q]) == Sum(f, b)
  {
    SumUpdate(f, b, i, p);
    SumUpdate(f, b[i := p], j, q);
  }

  lemma {:induction false} ProjectKeepsPast(h: Metric, b: seq<Point>, c: Constraint)
    requires Fits(c, |b|)
    ensures SamePast(b, Project(h, b, c))
  {
    PairKeepsPast(h, b[c.first], b[c.second], c.rest);
    hide FirstMoved, SecondMoved;
  }

  lemma {:induction false} ProjectKeeps(h: Metric, b: seq<Point>, c: Constraint)
    requires Fits(c, |b|)
    ensures SamePast(b, Project(h, b, c))
    ensures Sum(MomentX, Project(h, b, c)) == Sum(MomentX, b)
    ensures Sum(MomentY, Project(h, b, c)) == Sum(MomentY, b)
  {
    hide FirstMoved, SecondMoved, MomentX, MomentY, SamePast;
    var p, q := b[c.first], b[c.second];
    var p', q' := FirstMoved(h, p, q, c.rest), SecondMoved(h, p, q, c.rest);
    ProjectKeepsPast(h, b, c);
    PairKeepsMoments(h, p, q, c.rest);
    SumOfTwoUpdates(MomentX, b, c.first, c.second, p', q');
    SumOfTwoUpdates(MomentY, b, c.first, c.second, p', q');
  }

  lemma {:induction false} PassKeeps(h: Metric, b: seq<Point>, cs: seq<Constraint>)
    requires AllFit(cs, |b|)
    ensures SamePast(b, Pass(h, b, cs))
    ensures Sum(MomentX, Pass(h, b, cs)) == Sum(MomentX, b)
    ensures Sum(MomentY, Pass(h, b, cs)) == Sum(MomentY, b)
  {
    if |cs| > 0 {
      var n := |cs| - 1;
      PassKeeps(h, b, cs[..n]);
      ProjectKeeps(h, Pass(h, b, cs[..n]), cs[n]);
    }
  }

  /** Any number of passes, from any positions, keeps the centre of mass. */
  lemma {:induction false} SolveKeeps(h: Metric, b: seq<Point>, n: nat)
    requires |b| == 9
    ensures SamePast(b, Solve(h, b, n))
    ensures Sum(MomentX, Solve(h, b, n)) == Sum(MomentX, b)
    ensures Sum(MomentY, Solve(h, b, n)) == Sum(MomentY, b)
  {
    if n > 0 {
      SolveKeeps(h, b, n - 1);
      PassKeeps(h, Solve(h, b, n - 1), CONSTRAINT_PAIRS);
    }
  }

  ghost function PastX(p: Point): real { p.m * p.ox }
  ghost function PastY(p: Point): real { p.m * p.oy }

  /** Hence it keeps linear momentum, since it never writes previous positions. */
  lemma {:induction false} SolveKeepsMomentum(h: Metric, b: seq<Point>, n: nat)
    requires |b| == 9
    ensures Sum(MomentumX, Solve(h, b, n)) == Sum(MomentumX, b)
    ensures Sum(MomentumY, Solve(h, b, n)) == Sum(MomentumY, b)
  {
    hide Solve;
    var r := Solve(h, b, n);
    SolveKeeps(h, b, n);
    SumPointwise(PastX, r, PastX, b);
    SumPointwise(PastY, r, PastY, b);
    hide PastX, PastY, MomentX, MomentY, MomentumX, MomentumY;
    MomentumIsMomentMinusPast(b);
    MomentumIsMomentMinusPast(r);
  }

  lemma {:induction false} MomentumIsMomentMinusPast(b: seq<Point>)
    ensures Sum(MomentumX, b) == Sum(MomentX, b) - Sum(PastX, b)
    ensures Sum(MomentumY, b) == Sum(MomentY, b) - Sum(PastY, b)
  {
    SumMinus(MomentumX, b, MomentX, PastX, b);
    SumMinus(MomentumY, b, MomentY, PastY, b);
  }

  // ---------------------------------------------------------------- turning effect

  /** Mass times twice the area swept, about the pivot (ax, ay), in going from p to q. */
  ghost function Turn(p: Point, q: Point, ax: real, ay: real): real {
    p.m * ((p.x - ax) * (q.y - ay) - (p.y - ay) * (q.x - ax))
  }

  ghost function Sweep(b: seq<Point>, c: seq<Point>, ax: real, ay: real): real
    requires |b| == |c|
  {
    if |b| == 0 then 0.0
    else Sweep(b[..|b| - 1], c[..|c| - 1], ax, ay) + Turn(b[|b| - 1], c[|c| - 1], ax, ay)
  }

  lemma PairDoesNotTurn(h: Metric, p: Point, q: Point, rest: real, ax: real, ay: real)
    ensures Turn(p, FirstMoved(h, p, q, rest), ax, ay) + Turn(q, SecondMoved(h, p, q, rest), ax, ay) == 0.0
  {
    hide FirstMoved, SecondMoved, Excess, Turn;
    PairFacts(h, p, q, rest);
    OppositeTurns(p, q, FirstMoved(h, p, q, rest), SecondMoved(h, p, q, rest), ax, ay);
  }

  lemma OppositeTurns(p: Point, q: Point, p': Point, q': Point, ax: real, ay: real)
    requires p.m * (p'.x - p.x) + q.m * (q'.x - q.x) == 0.0
    requires p.m * (p'.y - p.y) + q.m * (q'.y - q.y) == 0.0
    requires (q.x - p.x) * (p'.y - p.y) == (q.y - p.y) * (p'.x - p.x)
    ensures Turn(p, p', ax, ay) + Turn(q, q', ax, ay) == 0.0
  {
    hide Turn;
    TurnOfMove(p, p', p.m * (p'.x - p.x), p.m * (p'.y - p.y), ax, ay);
    TurnOfMove(q, q', -(p.m * (p'.x - p.x)), -(p.m * (p'.y - p.y)), ax, ay);
    Crossed(p.m, q.x - p.x, q.y - p.y, p'.x - p.x, p'.y - p.y);
  }

  lemma TurnOfMove(p: Point, p': Point, gx: real, gy: real, ax: real, ay: real)
    requires gx == p.m * (p'.x - p.x) && gy == p.m * (p'.y - p.y)
    ensures Turn(p, p', ax, ay) == (p.x - ax) * gy - (p.y - ay) * gx
  {
    var ux, uy := p'.x - p.x, p'.y - p.y;
    assert (p.x - ax) * (p'.y - ay) - (p.y - ay) * (p'.x - ax) == (p.x - ax) * uy - (p.y - ay) * ux;
  }

  lemma Crossed(m: real, dx: real, dy: real, ux: real, uy: real)
    requires dx * uy == dy * ux
    ensures dx * (m * uy) - dy * (m * ux) == 0.0
  {
  }

  lemma StayingDoesNotTurn(p: Point, ax: real, ay: real)
    ensures Turn(p, p, ax, ay) == 0.0
  {
    assert (p.x - ax) * (p.y - ay) == (p.y - ay) * (p.x - ax);
  }

  lemma {:induction false} SweepOfTwo(b: seq<Point>, c: seq<Point>, i: nat, j: nat, ax: real, ay: real)
    requires |b| == |c| && i != j
    requires forall k | 0 <= k < |b| && k != i && k != j :: b[k] == c[k]
    ensures Sweep(b, c, ax, ay) == (if i < |b| then Turn(b[i], c[i], ax, ay) else 0.0)
                                 + (if j < |b| then Turn(b[j], c[j], ax, ay) else 0.0)
  {
    if |b| > 0 {
      var n := |b| - 1;
      SweepOfTwo(b[..n], c[..n], i, j, ax, ay);
      if n != i && n != j {
        StayingDoesNotTurn(b[n], ax, ay);
      }
    }
  }

  lemma {:induction false} ProjectDoesNotTurn(h: Metric, b: seq<Point>, c: Constraint, ax: real, ay: real)
    requires Fits(c, |b|)
    ensures Sweep(b, Project(h, b, c), ax, ay) == 0.0
  {
    SweepOfTwo(b, Project(h, b, c), c.first, c.second, ax, ay);
    PairDoesNotTurn(h, b[c.first], b[c.second], c.rest, ax, ay);
  }

  /** The turning effect accumulated projection by projection. */
  ghost function PassSweep(h: Metric, b: seq<Point>, cs: seq<Constraint>, ax: real, ay: real): real
    requires AllFit(cs, |b|)
  {
    if |cs| == 0 then 0.0
    else PassSweep(h, b, cs[..|cs| - 1], ax, ay) + Sweep(Pass(h, b, cs[..|cs| - 1]), Pass(h, b, cs), ax, ay)
  }

  ghost function SolveSweep(h: Metric, b: seq<Point>, n: nat, ax: real, ay: real): real
    requires |b| == 9
  {
    if n == 0 then 0.0
    else SolveSweep(h, b, n - 1, ax, ay) + PassSweep(h, Solve(h, b, n - 1), CONSTRAINT_PAIRS, ax, ay)
  }

  lemma {:induction false} PassDoesNotTurn(h: Metric, b: seq<Point>, cs: seq<Constraint>, ax: real, ay: real)
    requires AllFit(cs, |b|)
    ensures PassSweep(h, b, cs, ax, ay) == 0.0
  {
    if |cs| > 0 {
      var n := |cs| - 1;
      PassDoesNotTurn(h, b, cs[..n], ax, ay);
      ProjectDoesNotTurn(h, Pass(h, b, cs[..n]), cs[n], ax, ay);
    }
  }

  /** About every pivot, the solver exerts no net turning effect. */
  lemma {:induction false} SolveDoesNotTurn(h: Metric, b: seq<Point>, n: nat, ax: real, ay: real)
    requires |b| == 9
    ensures SolveSweep(h, b, n, ax, ay) == 0.0
  {
    if n > 0 {
      SolveDoesNotTurn(h, b, n - 1, ax, ay);
      PassDoesNotTurn(h, Solve(h, b, n - 1), CONSTRAINT_PAIRS, ax, ay);
    }
  }

  // ---------------------------------------------------------------- order-dependent exactness

  ghost predicate Touches(c: Constraint, k: nat) {
    c.first == k || c.second == k
  }

  ghost predicate LastTouch(cs: seq<Constraint>, t: nat) {
    t < |cs| && forall u | t < u < |cs| :: !Touches(cs[u], cs[t].first) && !Touches(cs[u], cs[t].second)
  }

  ghost predicate AtDistance(p: Point, q: Point, d: real) {
    SepSq(p, q) == d * d
  }

  /** The joints of c are at rest length in b' unless they coincided in b, and then still do. */
  ghost predicate Enforced(b: seq<Point>, b': seq<Point>, c: Constraint)
    requires |b| == |b'| && Fits(c, |b|)
  {
    if Coincide(b[c.first], b[c.second])
    then Coincide(b'[c.first], b'[c.second])
    else AtDistance(b'[c.first], b'[c.second], c.rest)
  }

  lemma {:induction false} ProjectEnforces(h: Metric, b: seq<Point>, c: Constraint)
    requires IsHypot(h) && Fits(c, |b|)
    ensures Enforced(b, Project(h, b, c), c)
  {
    PairExact(h, b[c.first], b[c.second], c.rest);
  }

  /** A constraint whose joints no later constraint touches is still enforced after the pass. */
  lemma {:induction false} LastTouchExact(h: Metric, b: seq<Point>, cs: seq<Constraint>, t: nat)
    requires IsHypot(h) && AllFit(cs, |b|) && LastTouch(cs, t)
    ensures Enforced(Pass(h, b, cs[..t]), Pass(h, b, cs), cs[t])
  {
    var n := |cs| - 1;
    if t == n {
      ProjectEnforces(h, Pass(h, b, cs[..t]), cs[t]);
    } else {
      assert cs[..n][..t] == cs[..t];
      LastTouchExact(h, b, cs[..n], t);
      assert !Touches(cs[n], cs[t].first) && !Touches(cs[n], cs[t].second);
    }
  }

  /** The configuration in which constraint t is applied for the last time. */
  ghost function LastSeen(h: Metric, b: seq<Point>, n: nat, t: nat): (r: seq<Point>)
    requires |b| == 9 && n > 0 && t < |CONSTRAINT_PAIRS|
    ensures |r| == 9
  {
    Pass(h, Solve(h, b, n - 1), CONSTRAINT_PAIRS[..t])
  }

  /** Both shins and the left shoulder brace leave the solver at exactly 5.0, 5.0 and 6.5
      if and only if the pair was distinct when last projected; otherwise at zero. */
  lemma {:induction false} ShinsAndBraceExact(h: Metric, b: seq<Point>, n: nat, t: nat)
    requires IsHypot(h) && |b| == 9 && n > 0 && (t == 6 || t == 7 || t == 9)
    ensures var c, seen, after := CONSTRAINT_PAIRS[t], LastSeen(h, b, n, t), Solve(h, b, n);
            var stuck := Coincide(seen[c.first], seen[c.second]);
            && (AtDistance(after[c.first], after[c.second], c.rest) <==> !stuck)
            && (Coincide(after[c.first], after[c.second]) <==> stuck)
  {
    ShinsAndBraceLast(t);
    LastTouchExact(h, Solve(h, b, n - 1), CONSTRAINT_PAIRS, t);
    EnforcedEitherWay(LastSeen(h, b, n, t), Solve(h, b, n), CONSTRAINT_PAIRS[t]);
  }

  lemma {:induction false} ShinsAndBraceLast(t: nat)
    requires t == 6 || t == 7 || t == 9
    ensures LastTouch(CONSTRAINT_PAIRS, t)
  {
  }

  lemma {:induction false} EnforcedEitherWay(b: seq<Point>, b': seq<Point>, c: Constraint)
    requires |b| == |b'| && Fits(c, |b|) && Enforced(b, b', c)
    ensures AtDistance(b'[c.first], b'[c.second], c.rest) <==> !Coincide(b[c.first], b[c.second])
    ensures Coincide(b'[c.first], b'[c.second]) <==> Coincide(b[c.first], b[c.second])
  {
    SquareSign(c.rest, c.rest * c.rest);
    if Coincide(b'[c.first], b'[c.second]) {
      assert SepSq(b'[c.first], b'[c.second]) == 0.0;
    }
  }

  // ---------------------------------------------------------------- idle solver

  ghost predicate Satisfied(b: seq<Point>, c: Constraint)
    requires Fits(c, |b|)
  {
    Coincide(b[c.first], b[c.second]) || AtDistance(b[c.first], b[c.second], c.rest)
  }

  ghost predicate AllSatisfied(b: seq<Point>, cs: seq<Constraint>)
    requires AllFit(cs, |b|)
  {
    forall i | 0 <= i < |cs| :: Satisfied(b, cs[i])
  }

  lemma AtRestStay(h: Metric, p: Point, q: Point, rest: real)
    requires IsHypot(h) && rest > 0.0 && !Coincide(p, q) && AtDistance(p, q, rest)
    ensures FirstMoved(h, p, q, rest) == p && SecondMoved(h, p, q, rest) == q
  {
    var d := Length(h, q.x - p.x, q.y - p.y);
    LengthMeaning(h, p, q);
    RootLe(d, rest);
    RootLe(rest, d);
    assert Excess(h, p, q, rest) == 0.0;
  }

  /** A projection moves nothing if and only if its pair coincides or is at rest length. */
  lemma {:induction false} ProjectIdleIff(h: Metric, b: seq<Point>, c: Constraint)
    requires IsHypot(h) && Fits(c, |b|)
    ensures Project(h, b, c) == b <==> Satisfied(b, c)
  {
    hide FirstMoved, SecondMoved, IsHypot, AtDistance;
    var p, q := b[c.first], b[c.second];
    if Coincide(p, q) {
      CoincidentStay(h, p, q, c.rest);
    } else if AtDistance(p, q, c.rest) {
      AtRestStay(h, p, q, c.rest);
    } else {
      ProjectEnforces(h, b, c);
    }
  }

  /** Hence projecting again changes nothing. */
  lemma {:induction false} ProjectIdempotent(h: Metric, b: seq<Point>, c: Constraint)
    requires IsHypot(h) && Fits(c, |b|)
    ensures Project(h, Project(h, b, c), c) == Project(h, b, c)
  {
    hide Project, IsHypot;
    ProjectEnforces(h, b, c);
    ProjectIdleIff(h, Project(h, b, c), c);
  }

  /** A pass is idle at every one of its projections if and only if every constraint of the
      table is satisfied. (A pass can also return to where it began without being idle.) */
  lemma {:induction false} PassIdleIff(h: Metric, b: seq<Point>, cs: seq<Constraint>)
    requires IsHypot(h) && AllFit(cs, |b|)
    ensures (forall k | 0 <= k <= |cs| :: Pass(h, b, cs[..k]) == b) <==> AllSatisfied(b, cs)
  {
    hide Project, Satisfied, IsHypot;
    if |cs| > 0 {
      var n := |cs| - 1;
      PassIdleIff(h, b, cs[..n]);
      ProjectIdleIff(h, b, cs[n]);
      assert forall k | 0 <= k <= n :: cs[..n][..k] == cs[..k];
      assert cs[..n + 1] == cs;
      if AllSatisfied(b, cs) {
        assert forall i | 0 <= i < n :: cs[..n][i] == cs[i];
        assert Pass(h, b, cs[..n][..n]) == b;
      }
      if forall k | 0 <= k <= |cs| :: Pass(h, b, cs[..k]) == b {
        assert Pass(h, b, cs[..n]) == b && Pass(h, b, cs[..n + 1]) == b;
        forall i | 0 <= i < |cs| ensures Satisfied(b, cs[i]) {
          if i < n { assert cs[..n][i] == cs[i]; }
        }
      }
    }
  }
}
