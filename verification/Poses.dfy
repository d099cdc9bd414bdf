/** Which poses the settling latch can and cannot reach. It looks at velocities taken before
    the constraints act, so it is blind to a body that rests on its own rigidity. */
module Poses {
  import opened Algebra
  import opened Model
  import opened Solver
  import opened Integration
  import opened Runs

  // ---------------------------------------------------------------- what the latch sees

  ghost function Slowed(p: Point, w: World): real {
    VelX(p) * w.friction
  }

  ghost function Rebound(y: real, m: Mass, floor: real): real {
    (floor - y) * Restitution(m)
  }

  /** A joint reads as still when its damped velocity is small or, if it reaches the floor,
      when its slowed horizontal velocity and its rebound are. */
  ghost predicate ReadsStill(p: Point, w: World) {
    if Hits(p, w)
    then Abs(Slowed(p, w)) <= 0.04 && Abs(Rebound(p.y, p.m, w.floor)) <= 0.04
    else Abs(VelX(p)) <= 0.04 && Abs(VelY(p, w)) <= 0.04
  }

  lemma VelocityAfter(p: Point, w: World)
    ensures var q := Advance(p, w);
            if Hits(p, w) then q.x - q.ox == Slowed(p, w) && q.y - q.oy == -Rebound(p.y, p.m, w.floor)
            else q.x - q.ox == VelX(p) && q.y - q.oy == VelY(p, w)
  {
    hide VelX, VelY, Restitution;
  }

  lemma StillReading(p: Point, w: World)
    ensures ReadsStill(p, w) <==> !Moving(Advance(p, w))
  {
    hide VelX, VelY, Slowed, Rebound, Advance, Hits;
    VelocityAfter(p, w);
  }

  /** Exactly when a step settles the ragdoll, in terms of the state before it. The positions
      the constraints produce play no part. */
  lemma {:induction false} SettlesIff(h: Metric, s: Ragdoll, w: World)
    requires |s.points| == 9 && !s.settled
    ensures Step(h, s, w).settled <==> s.frame >= 35 && forall i | 0 <= i < 9 :: ReadsStill(s.points[i], w)
  {
    hide Advance, Moving, ReadsStill, Solve;
    forall i | 0 <= i < 9 ensures ReadsStill(s.points[i], w) == !Moving(AdvanceAll(s.points, w)[i]) {
      StillReading(s.points[i], w);
    }
  }

  // ---------------------------------------------------------------- a torso at rest stays awake

  ghost predicate Spans(dx: real, dy: real, rest: real) {
    (rest - 0.5) * (rest - 0.5) <= dx * dx + dy * dy <= (rest + 0.5) * (rest + 0.5)
  }

  /** Two joints within half a unit of their rest length. */
  ghost predicate NearRest(p: Point, q: Point, rest: real) {
    Spans(q.x - p.x, q.y - p.y, rest)
  }

  lemma NotRisingFalls(p: Point, w: World)
    requires p.y >= p.oy && w.gravity > 0.04
    ensures VelY(p, w) > 0.04
  {
    DampingRange(p.m);
    Falls(p.y - p.oy, Damping(p.m), w.gravity, 1.0 / p.m, VelY(p, w));
  }

  lemma Falls(dy: real, d: real, g: real, inv: real, v: real)
    requires dy >= 0.0 && d >= 0.0 && g > 0.04 && inv > 0.0 && v == dy * d + g * (1.0 + inv * 0.08)
    ensures v > 0.04
  {
    NonNegativeProduct(dy, d, dy * d);
    NonNegativeProduct(g, inv, g * inv);
    assert g * (1.0 + inv * 0.08) == g + 0.08 * (g * inv);
  }

  /** A joint that is not rising and yet reads as still has landed within 0.27 of the floor. */
  lemma StillJointIsOnFloor(p: Point, w: World)
    requires p.y >= p.oy && w.gravity > 0.04 && !Moving(Advance(p, w))
    ensures Hits(p, w) && -0.27 <= p.y - w.floor <= 0.27
  {
    hide VelX, VelY, Restitution;
    NotRisingFalls(p, w);
    RestitutionRange(p.m);
    SmallDrop(w.floor - p.y, Restitution(p.m), Advance(p, w).oy - w.floor);
  }

  lemma SmallDrop(d: real, r: real, dr: real)
    requires r > 0.15 && dr == d * r && Abs(dr) <= 0.04
    ensures -0.27 <= d <= 0.27
  {
    if d > 0.27 {
      PositiveProduct(d - 0.27, r, dr - 0.27 * r);
    } else if d < -0.27 {
      PositiveProduct(-0.27 - d, r, -0.27 * r - dr);
    }
  }

  /** A triangle with sides near 3.5 and 6.5 lying in a strip 0.54 high has its third side
      away from 7.5. The squares of the sides' extents are passed in by name. */
  lemma TriangleNeedsHeight(a: real, c: real, aa: real, cc: real, tt: real, uu: real, vv: real, ww: real)
    requires aa == a * a && cc == c * c && tt == (a + c) * (a + c)
    requires 0.0 <= uu <= 0.2916 && 0.0 <= vv <= 0.2916 && 0.0 <= ww <= 0.2916
    requires 9.0 <= aa + uu <= 16.0 && 36.0 <= cc + vv <= 49.0
    ensures tt + ww < 49.0 || tt + ww > 64.0
  {
    var ac := 2.0 * (a * c);
    FarFromCollinear(a, c, aa, cc, ac);
    assert tt == aa + ac + cc;
  }

  lemma SmallSquare(u: real, uu: real)
    requires -0.54 <= u <= 0.54 && uu == u * u
    ensures 0.0 <= uu <= 0.2916
  {
    SquareLe(u, 0.54);
    SquareSign(u, uu);
  }

  lemma FarFromCollinear(a: real, c: real, aa: real, cc: real, ac: real)
    requires aa == a * a && cc == c * c && ac == 2.0 * (a * c) && aa >= 8.7 && cc >= 35.7
    ensures ac > 20.0 || ac < -20.0
  {
    assert ac * ac == 4.0 * (aa * cc);
    NonNegativeProduct(aa - 8.7, cc - 35.7, (aa - 8.7) * (cc - 35.7));
    assert aa * cc == (aa - 8.7) * (cc - 35.7) + 35.7 * aa + 8.7 * cc - 310.59;
    if -20.0 <= ac <= 20.0 {
      SquareLe(ac, 20.0);
    }
  }

  /** While neck, one shoulder and hips are within half a unit of their rest lengths and none
      of them is rising, no step under gravity above 0.04 settles the ragdoll: a body at rest
      in a sound pose is never recognised as settled. */
  lemma {:induction false} RestingTorsoStaysAwake(h: Metric, s: Ragdoll, w: World, shoulder: nat)
    requires |s.points| == 9 && !s.settled && w.gravity > 0.04 && (shoulder == 2 || shoulder == 3)
    requires forall i | i == 1 || i == shoulder || i == 4 :: s.points[i].y >= s.points[i].oy
    requires NearRest(s.points[1], s.points[shoulder], 3.5)
    requires NearRest(s.points[shoulder], s.points[4], 6.5)
    requires NearRest(s.points[1], s.points[4], 7.5)
    ensures !Step(h, s, w).settled
  {
    TorsoNotStill(s.points[1], s.points[shoulder], s.points[4], w);
    hide Advance, Moving, Solve;
    var a := AdvanceAll(s.points, w);
    assert Moving(a[1]) || Moving(a[shoulder]) || Moving(a[4]);
  }

  lemma TorsoNeedsHeight(p: Point, q: Point, r: Point)
    requires -0.54 <= q.y - p.y <= 0.54 && -0.54 <= r.y - q.y <= 0.54 && -0.54 <= r.y - p.y <= 0.54
    requires NearRest(p, q, 3.5) && NearRest(q, r, 6.5)
    ensures !NearRest(p, r, 7.5)
  {
    hide Spans;
    StripTriangle(q.x - p.x, q.y - p.y, r.x - q.x, r.y - q.y, r.x - p.x, r.y - p.y);
  }

  lemma StripTriangle(a: real, u: real, c: real, v: real, e: real, t: real)
    requires e == a + c && -0.54 <= u <= 0.54 && -0.54 <= v <= 0.54 && -0.54 <= t <= 0.54
    requires Spans(a, u, 3.5) && Spans(c, v, 6.5)
    ensures !Spans(e, t, 7.5)
  {
    SmallSquare(u, u * u);
    SmallSquare(v, v * v);
    SmallSquare(t, t * t);
    TriangleNeedsHeight(a, c, a * a, c * c, e * e, u * u, v * v, t * t);
  }

  lemma TorsoNotStill(p: Point, q: Point, r: Point, w: World)
    requires w.gravity > 0.04 && p.y >= p.oy && q.y >= q.oy && r.y >= r.oy
    requires NearRest(p, q, 3.5) && NearRest(q, r, 6.5) && NearRest(p, r, 7.5)
    ensures Moving(Advance(p, w)) || Moving(Advance(q, w)) || Moving(Advance(r, w))
  {
    hide Advance, Moving, NearRest;
    if !Moving(Advance(p, w)) && !Moving(Advance(q, w)) && !Moving(Advance(r, w)) {
      StillJointIsOnFloor(p, w);
      StillJointIsOnFloor(q, w);
      StillJointIsOnFloor(r, w);
      TorsoNeedsHeight(p, q, r);
    }
  }

  // ---------------------------------------------------------------- a flat body stays flat

  /** Every joint on the line y == level, none of them rising. */
  ghost predicate Flat(b: seq<Point>, level: real) {
    forall i | 0 <= i < |b| :: b[i].y == level && b[i].oy <= level
  }

  ghost predicate PressesDown(e: Event, level: real) {
    match e
    case Tick(w) => w.floor == level && w.gravity >= 0.0
    case Impulse(_, iy) => iy >= 0.0
  }

  /** On or below the floor line and not rising. */
  ghost predicate Pressed(p: Point, level: real) {
    p.y >= level && p.oy <= p.y
  }

  lemma AdvancePressed(p: Point, w: World)
    requires Pressed(p, w.floor) && w.gravity >= 0.0
    ensures var q := Advance(p, w);
            Hits(p, w) && q.y == w.floor && q.oy <= w.floor && (p.y == w.floor ==> q.oy == w.floor)
  {
    DampingRange(p.m);
    RestitutionRange(p.m);
    NonNegativeProduct(p.y - p.oy, Damping(p.m), (p.y - p.oy) * Damping(p.m));
    NonNegativeProduct(w.gravity, 1.0 + (1.0 / p.m) * 0.08, w.gravity * (1.0 + (1.0 / p.m) * 0.08));
    NonNegativeProduct(p.y - w.floor, Restitution(p.m), -((w.floor - p.y) * Restitution(p.m)));
  }

  /** Every joint on the line y == level. */
  ghost predicate Level(b: seq<Point>, level: real) {
    forall i | 0 <= i < |b| :: b[i].y == level
  }

  lemma {:induction false} ProjectLevel(h: Metric, b: seq<Point>, c: Constraint, level: real)
    requires Fits(c, |b|) && Level(b, level)
    ensures Level(Project(h, b, c), level)
  {
    hide Excess, Share;
  }

  lemma {:induction false} PassLevel(h: Metric, b: seq<Point>, cs: seq<Constraint>, level: real)
    requires AllFit(cs, |b|) && Level(b, level)
    ensures Level(Pass(h, b, cs), level)
  {
    if |cs| > 0 {
      PassLevel(h, b, cs[..|cs| - 1], level);
      ProjectLevel(h, Pass(h, b, cs[..|cs| - 1]), cs[|cs| - 1], level);
    }
  }

  /** The constraints of a level body act along its line and cannot leave it. */
  lemma {:induction false} SolveLevel(h: Metric, b: seq<Point>, n: nat, level: real)
    requires |b| == 9 && Level(b, level)
    ensures Level(Solve(h, b, n), level)
  {
    if n > 0 {
      SolveLevel(h, b, n - 1, level);
      PassLevel(h, Solve(h, b, n - 1), CONSTRAINT_PAIRS, level);
    }
  }

  ghost predicate AllPressed(b: seq<Point>, level: real) {
    forall i | 0 <= i < |b| :: Pressed(b[i], level)
  }

  /** A step lays a pressed body flat on its floor. */
  lemma {:induction false} StepFlattens(h: Metric, s: Ragdoll, w: World)
    requires |s.points| == 9 && !s.settled && AllPressed(s.points, w.floor) && w.gravity >= 0.0
    ensures Flat(Step(h, s, w).points, w.floor)
  {
    hide Solve, Advance, Pressed;
    var a := AdvanceAll(s.points, w);
    forall i | 0 <= i < 9 ensures a[i].y == w.floor && a[i].oy <= w.floor {
      AdvancePressed(s.points[i], w);
    }
    SolveLevel(h, a, PASSES, w.floor);
    SolveKeeps(h, a, PASSES);
  }

  lemma {:induction false} KickPresses(b: seq<Point>, ix: real, iy: real, level: real)
    requires |b| == 9 && AllPressed(b, level) && iy >= 0.0
    ensures AllPressed(Kicked(b, ix, iy), level)
  {
    forall i | 0 <= i < 9 ensures Pressed(Kicked(b, ix, iy)[i], level) {
      assert Pressed(b[i], level);
      NonNegativeProduct(iy, KICK_Y[i], iy * KICK_Y[i]);
    }
  }

  lemma {:induction false} FlatIsPressed(b: seq<Point>, level: real)
    ensures Flat(b, level) <==> Level(b, level) && AllPressed(b, level)
  {
    if Level(b, level) && AllPressed(b, level) {
      forall i | 0 <= i < |b| ensures b[i].oy <= level {
        assert Pressed(b[i], level);
      }
    }
  }

  lemma {:induction false} ApplyFlat(h: Metric, s: Ragdoll, e: Event, level: real)
    requires |s.points| == 9 && Flat(s.points, level) && PressesDown(e, level)
    ensures Flat(Apply(h, s, e).points, level)
  {
    hide Step;
    FlatIsPressed(s.points, level);
    match e
    case Tick(w) =>
      if s.settled {
        StepWhenSettled(h, s, w);
      } else {
        StepFlattens(h, s, w);
      }
    case Impulse(ix, iy) =>
      KickPresses(s.points, ix, iy, level);
      FlatIsPressed(Kicked(s.points, ix, iy), level);
  }

  /** A body lying flat on the floor never gets up again, whatever horizontal impulses and
      downward blows it takes: the constraints act along a line and cannot leave it. */
  lemma {:induction false} FlatForever(h: Metric, s: Ragdoll, es: seq<Event>, level: real)
    requires |s.points| == 9 && Flat(s.points, level)
    requires forall i | 0 <= i < |es| :: PressesDown(es[i], level)
    ensures Flat(Run(h, s, es).points, level)
  {
    if |es| > 0 {
      hide Apply, Flat, PressesDown;
      FlatForever(h, s, es[..|es| - 1], level);
      ApplyFlat(h, Run(h, s, es[..|es| - 1]), es[|es| - 1], level);
    }
  }
}
