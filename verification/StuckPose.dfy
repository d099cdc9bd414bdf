/** A concrete flat pose that a full pass of the solver carries back onto itself although six
    of its ten constraints are violated. It is an equilibrium of the whole simulation, and the
    ragdoll settles in it. */
module StuckPose {
  import opened Model
  import opened Solver
  import opened Poses
  import opened Runs
  import opened Symmetry

  /** Joints laid out along the line y == 0, last seen at os. */
  ghost function Lay(xs: seq<real>, os: seq<real>): (b: seq<Point>)
    requires |xs| == 9 && |os| == 9
    ensures |b| == 9
  {
    seq(9, i requires 0 <= i < 9 => Point(xs[i], 0.0, os[i], 0.0, JOINT_MASS[i]))
  }

  lemma MetricOnLine(h: Metric, d: real)
    requires IsHypot(h)
    ensures h(d, 0.0) == Abs(d)
  {
    assert h(d, 0.0) * h(d, 0.0) == d * d + 0.0 * 0.0;
    SameSquare(h(d, 0.0), Abs(d));
  }

  ghost function SignedError(x: real, x': real, rest: real): real {
    if x' > x then x' - x - rest else x' - x + rest
  }

  lemma ExcessOnLine(h: Metric, p: Point, q: Point, rest: real)
    requires IsHypot(h) && p.y == q.y && q.x != p.x
    ensures (q.x - p.x) * Excess(h, p, q, rest) == SignedError(p.x, q.x, rest)
  {
    MetricOnLine(h, q.x - p.x);
  }

  /** On a line, a projection splits the signed error by mass: here as a check of where
      the two joints end up. */
  lemma PairOnLine(h: Metric, p: Point, q: Point, rest: real, x: real, x': real)
    requires IsHypot(h) && p.y == q.y && q.x != p.x
    requires (p.m + q.m) * (x - p.x) == q.m * SignedError(p.x, q.x, rest)
    requires (p.m + q.m) * (q.x - x') == p.m * SignedError(p.x, q.x, rest)
    ensures FirstMoved(h, p, q, rest) == p.(x := x) && SecondMoved(h, p, q, rest) == q.(x := x')
  {
    var d, e, err := q.x - p.x, Excess(h, p, q, rest), SignedError(p.x, q.x, rest);
    ExcessOnLine(h, p, q, rest);
    ShareOf(q.m, p.m + q.m, d, e, err, x - p.x);
    ShareOf(p.m, p.m + q.m, d, e, err, q.x - x');
    hide Excess, Share, SignedError, IsHypot;
  }

  lemma ShareOf(m: Mass, t: Mass, d: real, e: real, err: real, move: real)
    requires d * e == err && t * move == m * err
    ensures d * Share(m, t) * e == move
  {
    assert t * (d * Share(m, t) * e) == (t * Share(m, t)) * (d * e) == m * err;
    assert t * (d * Share(m, t) * e - move) == 0.0;
  }

  lemma {:induction false} LayProject(h: Metric, xs: seq<real>, os: seq<real>, c: Constraint, xs': seq<real>)
    requires IsHypot(h) && |xs| == 9 && |os| == 9 && |xs'| == 9 && Fits(c, 9)
    requires xs[c.second] != xs[c.first]
    requires var t, err := JOINT_MASS[c.first] + JOINT_MASS[c.second], SignedError(xs[c.first], xs[c.second], c.rest);
             && t * (xs'[c.first] - xs[c.first]) == JOINT_MASS[c.second] * err
             && t * (xs[c.second] - xs'[c.second]) == JOINT_MASS[c.first] * err
    requires forall i | 0 <= i < 9 && i != c.first && i != c.second :: xs'[i] == xs[i]
    ensures Project(h, Lay(xs, os), c) == Lay(xs', os)
  {
    hide FirstMoved, SecondMoved, SignedError, IsHypot;
    PairOnLine(h, Lay(xs, os)[c.first], Lay(xs, os)[c.second], c.rest, xs'[c.first], xs'[c.second]);
    assert Project(h, Lay(xs, os), c) == Lay(xs', os);
  }

  /** The layout before constraint k of the table is applied. */
  ghost function Stage(k: nat): (xs: seq<real>)
    ensures |xs| == 9
  {
    if k <= 1 || k >= 10 then
      [-3.5, 0.0, 2041.0 / 1726.0, 1831943.0 / 1489538.0, 5756970.0 / 744769.0, 13.0, 2.0, 18.0, -3.0]
    else if k == 2 then
      [-3.5, -1440.0 / 863.0, 3161.0 / 1726.0, 1831943.0 / 1489538.0, 5756970.0 / 744769.0, 13.0, 2.0, 18.0, -3.0]
    else if k == 3 then
      [-3.5, -1565280.0 / 744769.0, 3161.0 / 1726.0, 2082823.0 / 1489538.0, 5756970.0 / 744769.0, 13.0, 2.0, 18.0, -3.0]
    else if k <= 8 then
      [-3.5, 0.0, 3161.0 / 1726.0, 2082823.0 / 1489538.0, 7.5, 13.0, 2.0, 18.0, -3.0]
    else
      [-3.5, 0.0, 2041.0 / 1726.0, 2082823.0 / 1489538.0, 6630.0 / 863.0, 13.0, 2.0, 18.0, -3.0]
  }

  lemma {:induction false} StageStep(h: Metric, os: seq<real>, k: nat)
    requires IsHypot(h) && |os| == 9 && k < 10
    ensures Project(h, Lay(Stage(k), os), CONSTRAINT_PAIRS[k]) == Lay(Stage(k + 1), os)
  {
    hide Project, IsHypot, Lay;
    LayProject(h, Stage(k), os, CONSTRAINT_PAIRS[k], Stage(k + 1));
  }

  lemma {:induction false} StagePass(h: Metric, os: seq<real>, k: nat)
    requires IsHypot(h) && |os| == 9 && k <= 10
    ensures Pass(h, Lay(Stage(0), os), CONSTRAINT_PAIRS[..k]) == Lay(Stage(k), os)
  {
    hide Project, IsHypot, Lay, Stage;
    if k > 0 {
      StagePass(h, os, k - 1);
      StageStep(h, os, k - 1);
      assert CONSTRAINT_PAIRS[..k][..k - 1] == CONSTRAINT_PAIRS[..k - 1];
    }
  }

  /** The stuck pose, at rest on the floor with the hips near x and the joints at height y. */
  ghost function Stuck(x: real, y: real): (b: seq<Point>)
    ensures |b| == 9
  {
    MapBody(Motion(false, x, y), Lay(Stage(0), Stage(0)))
  }

  lemma {:induction false} StuckSolve(h: Metric, n: nat)
    requires IsHypot(h)
    ensures Solve(h, Lay(Stage(0), Stage(0)), n) == Lay(Stage(0), Stage(0))
  {
    hide Pass, IsHypot, Lay;
    if n > 0 {
      StuckSolve(h, n - 1);
      StagePass(h, Stage(0), 10);
      assert CONSTRAINT_PAIRS[..10] == CONSTRAINT_PAIRS;
      assert Stage(10) == Stage(0);
    }
  }

  /** The solver returns the stuck pose unchanged, however many passes it makes. Only the
      head's constraint, both shins and the left shoulder brace are at rest length; neck and
      right shoulder are less than 1.2 apart instead of 3.5. */
  lemma {:induction false} StuckUnderSolver(h: Metric, x: real, y: real, n: nat)
    requires IsHypot(h)
    ensures Solve(h, Stuck(x, y), n) == Stuck(x, y)
    ensures forall k | 0 <= k < 10 :: Satisfied(Stuck(x, y), CONSTRAINT_PAIRS[k]) <==> k in {0, 6, 7, 9}
    ensures SepSq(Stuck(x, y)[1], Stuck(x, y)[2]) < 1.44
  {
    hide Solve, Lay, IsHypot, Satisfied, SepSq;
    StuckSolve(h, n);
    SolveCommutes(h, Motion(false, x, y), Lay(Stage(0), Stage(0)), n);
    StuckViolations(x, y);
  }

  lemma StuckViolations(x: real, y: real)
    ensures forall k | 0 <= k < 10 :: Satisfied(Stuck(x, y), CONSTRAINT_PAIRS[k]) <==> k in {0, 6, 7, 9}
    ensures SepSq(Stuck(x, y)[1], Stuck(x, y)[2]) < 1.44
  {
    forall k | 0 <= k < 10
      ensures Satisfied(Stuck(x, y), CONSTRAINT_PAIRS[k]) <==> k in {0, 6, 7, 9}
    {
      StuckPair(x, y, k);
    }
    StuckPair(x, y, 1);
  }

  /** On the line, a constraint is satisfied when the signed distance is plus or minus its rest
      length (no joints of the stuck pose coincide). */
  lemma {:induction false} StuckPair(x: real, y: real, k: nat)
    requires k < 10
    ensures var c := CONSTRAINT_PAIRS[k];
            var d := Stage(0)[c.second] - Stage(0)[c.first];
            && SepSq(Stuck(x, y)[c.first], Stuck(x, y)[c.second]) == d * d
            && (Satisfied(Stuck(x, y), c) <==> d == c.rest || d == -c.rest)
  {
    var c, b := CONSTRAINT_PAIRS[k], Stuck(x, y);
    PairOfLine(b[c.first], b[c.second], Stage(0)[c.second] - Stage(0)[c.first], c.rest);
  }

  lemma PairOfLine(p: Point, q: Point, d: real, rest: real)
    requires p.y == q.y && q.x - p.x == d && d != 0.0
    ensures SepSq(p, q) == d * d && !Coincide(p, q)
    ensures AtDistance(p, q, rest) <==> d == rest || d == -rest
  {
    assert SepSq(p, q) == d * d + 0.0 * 0.0;
    assert d * d - rest * rest == (d - rest) * (d + rest);
  }

  lemma StuckAdvance(x: real, y: real, w: World)
    requires w.floor == y && w.gravity >= 0.0
    ensures AdvanceAll(Stuck(x, y), w) == Stuck(x, y) && !AnyMoving(Stuck(x, y))
  {
    var b := Stuck(x, y);
    forall i | 0 <= i < 9 ensures Advance(b[i], w) == b[i] && !Moving(b[i]) {
      AdvancePressed(b[i], w);
      hide VelY, Restitution, Damping, Stage;
      assert VelX(b[i]) == 0.0;
    }
  }

  lemma {:induction false} StuckStep(h: Metric, s: Ragdoll, x: real, y: real, w: World)
    requires IsHypot(h) && s.points == Stuck(x, y) && w.floor == y && w.gravity >= 0.0 && !s.settled
    ensures var r := Step(h, s, w);
            r.points == s.points && r.frame == s.frame + 1 && r.settled == (r.frame > 35)
  {
    hide Solve, AdvanceAll, AnyMoving, Drips, Spots, IsHypot, Stuck, Satisfied;
    StuckAdvance(x, y, w);
    StuckUnderSolver(h, x, y, PASSES);
  }

  /** Left alone in the stuck pose, on any floor at its height and under any gravity that is
      not negative, the ragdoll never moves a joint, at any friction; a fresh frame count
      makes it settle on exactly the 36th step, a later one on the first it may. */
  lemma {:induction false} StuckSettles(h: Metric, s: Ragdoll, x: real, y: real, es: seq<Event>)
    requires IsHypot(h) && s.points == Stuck(x, y) && !s.settled
    requires forall i | 0 <= i < |es| :: es[i].Tick? && es[i].world.floor == y && es[i].world.gravity >= 0.0
    ensures var r, steps := Run(h, s, es), if s.frame < 35 then 36 - s.frame else 1;
            && r.points == s.points
            && (r.settled <==> |es| >= steps)
            && r.frame == s.frame + if |es| <= steps then |es| else steps
  {
    if |es| > 0 {
      hide Step, IsHypot, Stuck;
      var n := |es| - 1;
      StuckSettles(h, s, x, y, es[..n]);
      var r := Run(h, s, es[..n]);
      if r.settled {
        StepWhenSettled(h, r, es[n].world);
      } else {
        StuckStep(h, r, x, y, es[n].world);
      }
    }
  }
}
