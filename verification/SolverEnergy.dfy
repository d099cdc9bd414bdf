/** The solver writes positions and leaves previous positions alone, so whatever it moves it also
    speeds up or slows down. Exactly when can it not add kinetic energy? */
module SolverEnergy {
  import opened Algebra
  import opened Model
  import opened Sums
  import opened Solver
  import opened FixedPass

  /** The body b, arriving from the previous positions of c. */
  ghost function Recall(b: seq<Point>, c: seq<Point>): (r: seq<Point>)
    requires |b| == |c|
    ensures |r| == |b|
  {
    seq(|b|, i requires 0 <= i < |b| => RecallPoint(b[i], c[i]))
  }

  ghost function RecallPoint(p: Point, q: Point): Point {
    p.(ox := q.ox, oy := q.oy)
  }

  // ---------------------------------------------------------------- the solver ignores the past

  lemma PairIgnoresPast(h: Metric, p: Point, q: Point, rest: real, a: Point, b: Point)
    ensures FirstMoved(h, RecallPoint(p, a), RecallPoint(q, b), rest) == RecallPoint(FirstMoved(h, p, q, rest), a)
    ensures SecondMoved(h, RecallPoint(p, a), RecallPoint(q, b), rest) == RecallPoint(SecondMoved(h, p, q, rest), b)
  {
    hide Length, Share, Correction;
  }

  lemma {:induction false} ProjectIgnoresPast(h: Metric, b: seq<Point>, c: seq<Point>, k: Constraint)
    requires |b| == |c| && Fits(k, |b|)
    ensures Project(h, Recall(b, c), k) == Recall(Project(h, b, k), c)
  {
    hide FirstMoved, SecondMoved, RecallPoint;
    PairIgnoresPast(h, b[k.first], b[k.second], k.rest, c[k.first], c[k.second]);
    assert Project(h, Recall(b, c), k) == Recall(Project(h, b, k), c);
  }

  lemma {:induction false} PassIgnoresPast(h: Metric, b: seq<Point>, c: seq<Point>, cs: seq<Constraint>)
    requires |b| == |c| && AllFit(cs, |b|)
    ensures Pass(h, Recall(b, c), cs) == Recall(Pass(h, b, cs), c)
  {
    if |cs| > 0 {
      hide Project, Recall;
      PassIgnoresPast(h, b, c, cs[..|cs| - 1]);
      ProjectIgnoresPast(h, Pass(h, b, cs[..|cs| - 1]), c, cs[|cs| - 1]);
    }
  }

  lemma {:induction false} SolveIgnoresPast(h: Metric, b: seq<Point>, c: seq<Point>, n: nat)
    requires |b| == |c| == 9
    ensures Solve(h, Recall(b, c), n) == Recall(Solve(h, b, n), c)
  {
    if n > 0 {
      hide Project, Recall;
      SolveIgnoresPast(h, b, c, n - 1);
      PassIgnoresPast(h, Solve(h, b, n - 1), c, CONSTRAINT_PAIRS);
    }
  }

  // ---------------------------------------------------------------- energy of a still body

  lemma KineticSign(p: Point)
    ensures Kinetic(p) >= 0.0
    ensures Kinetic(p) == 0.0 <==> p.x == p.ox && p.y == p.oy
  {
    var vx, vy := p.x - p.ox, p.y - p.oy;
    SquareSign(vx, vx * vx);
    SquareSign(vy, vy * vy);
    NonNegativeProduct(p.m, vx * vx + vy * vy, p.m * (vx * vx + vy * vy));
    if vx * vx + vy * vy > 0.0 {
      PositiveProduct(p.m, vx * vx + vy * vy, p.m * (vx * vx + vy * vy));
    }
  }

  ghost predicate AtRest(b: seq<Point>) {
    forall i | 0 <= i < |b| :: b[i].x == b[i].ox && b[i].y == b[i].oy
  }

  /** Kinetic energy is never negative, and zero exactly for a body at rest. */
  lemma {:induction false} EnergyOfBody(b: seq<Point>)
    ensures Sum(Kinetic, b) >= 0.0
    ensures Sum(Kinetic, b) == 0.0 <==> AtRest(b)
  {
    if |b| > 0 {
      hide Kinetic;
      var n := |b| - 1;
      EnergyOfBody(b[..n]);
      KineticSign(b[n]);
      assert AtRest(b) <==> AtRest(b[..n]) && b[n].x == b[n].ox && b[n].y == b[n].oy by {
        assert forall i | 0 <= i < n :: b[..n][i] == b[i];
      }
    }
  }

  /** Two joints alone account for no more than the whole. */
  lemma {:induction false} EnergyOfTwo(b: seq<Point>, i: nat, j: nat)
    requires i < j < |b|
    ensures Sum(Kinetic, b) >= Kinetic(b[i]) + Kinetic(b[j])
  {
    hide Kinetic;
    var n := |b| - 1;
    KineticSign(b[n]);
    if j < n {
      EnergyOfTwo(b[..n], i, j);
    } else {
      EnergyOfOne(b[..n], i);
    }
  }

  lemma {:induction false} EnergyOfOne(b: seq<Point>, i: nat)
    requires i < |b|
    ensures Sum(Kinetic, b) >= Kinetic(b[i])
  {
    hide Kinetic;
    var n := |b| - 1;
    KineticSign(b[n]);
    if i < n {
      EnergyOfOne(b[..n], i);
    } else {
      EnergyOfBody(b[..n]);
    }
  }

  // ---------------------------------------------------------------- when the solver is safe

  ghost predicate SafeFrom(h: Metric, b: seq<Point>, c: seq<Point>, n: nat)
    requires |b| == |c| == 9
  {
    Sum(Kinetic, Solve(h, Recall(b, c), n)) <= Sum(Kinetic, Recall(b, c))
  }

  /** From the positions of b, and at any velocity, n passes add no kinetic energy. */
  ghost predicate Safe(h: Metric, b: seq<Point>, n: nat)
    requires |b| == 9
  {
    forall c: seq<Point> {:trigger SafeFrom(h, b, c, n)} | |c| == 9 :: SafeFrom(h, b, c, n)
  }

  /** Any number of passes is safe at every velocity if and only if it moves no joint. */
  lemma {:induction false} SafeIffFixed(h: Metric, b: seq<Point>, n: nat)
    requires |b| == 9
    ensures Safe(h, b, n) <==> Solve(h, b, n) == b
  {
    hide Solve, Kinetic, Sum, Recall, SafeFrom;
    if Solve(h, b, n) == b {
      forall c: seq<Point> | |c| == 9 ensures SafeFrom(h, b, c, n) {
        FixedIsSafeFrom(h, b, c, n);
      }
    }
    if Safe(h, b, n) {
      StillForcesFixed(h, b, n);
    }
  }

  lemma {:induction false} FixedIsSafeFrom(h: Metric, b: seq<Point>, c: seq<Point>, n: nat)
    requires |b| == |c| == 9 && Solve(h, b, n) == b
    ensures SafeFrom(h, b, c, n)
  {
    hide Solve, Kinetic, Sum, Recall;
    SolveIgnoresPast(h, b, c, n);
  }

  /** The same positions, at rest. */
  ghost function Stopped(b: seq<Point>): (c: seq<Point>)
    ensures |c| == |b|
  {
    seq(|b|, i requires 0 <= i < |b| => Still(b[i].x, b[i].y, b[i].m))
  }

  lemma {:induction false} StillForcesFixed(h: Metric, b: seq<Point>, n: nat)
    requires |b| == 9 && Safe(h, b, n)
    ensures Solve(h, b, n) == b
  {
    hide Solve, Kinetic, Sum, Recall, Stopped, SamePast, AtRest;
    var c, r := Stopped(b), Solve(h, b, n);
    SolveIgnoresPast(h, b, c, n);
    SolveKeeps(h, b, n);
    EnergyOfBody(Recall(b, c));
    EnergyOfBody(Recall(r, c));
    assert SafeFrom(h, b, c, n);
    StoppedIsAtRest(b);
    OnlyStoppedIsAtRest(b, r);
  }

  lemma {:induction false} StoppedIsAtRest(b: seq<Point>)
    ensures AtRest(Recall(b, Stopped(b)))
  {
  }

  lemma {:induction false} OnlyStoppedIsAtRest(b: seq<Point>, r: seq<Point>)
    requires SamePast(b, r) && AtRest(Recall(r, Stopped(b)))
    ensures r == b
  {
    forall i | 0 <= i < |b| ensures r[i] == b[i] {
      assert Recall(r, Stopped(b))[i] == RecallPoint(r[i], Still(b[i].x, b[i].y, b[i].m));
    }
  }

  ghost predicate PassSafeFrom(h: Metric, b: seq<Point>, c: seq<Point>)
    requires |b| == |c| == 9
  {
    Sum(Kinetic, Pass(h, Recall(b, c), CONSTRAINT_PAIRS)) <= Sum(Kinetic, Recall(b, c))
  }

  /** From the positions of b, and at any velocity, one pass adds no kinetic energy. */
  ghost predicate PassSafe(h: Metric, b: seq<Point>)
    requires |b| == 9
  {
    forall c: seq<Point> {:trigger PassSafeFrom(h, b, c)} | |c| == 9 :: PassSafeFrom(h, b, c)
  }

  lemma {:induction false} SolveOnce(h: Metric, b: seq<Point>)
    requires |b| == 9
    ensures Solve(h, b, 1) == Pass(h, b, CONSTRAINT_PAIRS)
  {
    hide Pass;
  }

  lemma {:induction false} SafeOnce(h: Metric, b: seq<Point>)
    requires |b| == 9
    ensures Safe(h, b, 1) <==> PassSafe(h, b)
  {
    hide SafeFrom, PassSafeFrom;
    forall c: seq<Point> | |c| == 9 ensures SafeFrom(h, b, c, 1) == PassSafeFrom(h, b, c) {
      SafeFromOnce(h, b, c);
    }
  }

  lemma {:induction false} SafeFromOnce(h: Metric, b: seq<Point>, c: seq<Point>)
    requires |b| == |c| == 9
    ensures SafeFrom(h, b, c, 1) == PassSafeFrom(h, b, c)
  {
    hide Solve, Pass, Kinetic, Recall, Sum;
    SolveOnce(h, Recall(b, c));
  }

  /** A pass adds kinetic energy at no velocity if and only if every constraint is satisfied,
      for every body whose shoulders are not in line with neck and hips. */
  lemma {:induction false} PassSafeIff(h: Metric, b: seq<Point>)
    requires IsHypot(h) && |b| == 9
    requires !Collinear(b[1], b[2], b[4]) && !Collinear(b[1], b[3], b[4])
    ensures PassSafe(h, b) <==> AllSatisfied(b, CONSTRAINT_PAIRS)
  {
    hide Solve, Pass, PassSafe, Safe, IsHypot, Collinear, AllSatisfied;
    FixedPassIff(h, b);
    SafeIffFixed(h, b, 1);
    SafeOnce(h, b);
    SolveOnce(h, b);
  }

  /** A body whose constraints are all satisfied gains no energy from any number of passes. */
  lemma {:induction false} SatisfiedIsSafe(h: Metric, b: seq<Point>, n: nat)
    requires IsHypot(h) && |b| == 9 && AllSatisfied(b, CONSTRAINT_PAIRS)
    ensures Safe(h, b, n)
  {
    hide Solve, IsHypot, AllSatisfied, Safe;
    SatisfiedStays(h, b, n);
    SafeIffFixed(h, b, n);
  }
}
