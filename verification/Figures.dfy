/** The source's figures, read off what a whole body does: energies, rebounds and dampings as
    single numbers, the shape of the standing pose, and sixty projections a step. */
module Figures {
  import opened Model
  import opened Sums
  import opened Solver
  import opened Integration
  import opened FixedPass
  import opened SolverEnergy

  // ---------------------------------------------------------------- sixty projections

  lemma {:induction false} PassConcat(h: Metric, b: seq<Point>, cs: seq<Constraint>, ds: seq<Constraint>)
    requires AllFit(cs, |b|) && AllFit(ds, |b|)
    ensures AllFit(cs + ds, |b|) && Pass(h, b, cs + ds) == Pass(h, Pass(h, b, cs), ds)
  {
    hide Project;
    if |ds| == 0 {
      assert cs + ds == cs;
    } else {
      var n := |ds| - 1;
      PassConcat(h, b, cs, ds[..n]);
      assert (cs + ds)[..|cs| + n] == cs + ds[..n];
    }
  }

  lemma {:induction false} SolveIsOnePass(h: Metric, b: seq<Point>, n: nat) returns (cs: seq<Constraint>)
    requires |b| == 9
    ensures |cs| == 10 * n && AllFit(cs, 9)
    ensures forall i | 0 <= i < |cs| :: cs[i] == CONSTRAINT_PAIRS[i % 10]
    ensures Solve(h, b, n) == Pass(h, b, cs)
  {
    hide Project;
    if n == 0 {
      cs := [];
    } else {
      var before := SolveIsOnePass(h, b, n - 1);
      PassConcat(h, b, before, CONSTRAINT_PAIRS);
      cs := before + CONSTRAINT_PAIRS;
      forall i | 0 <= i < |cs| ensures cs[i] == CONSTRAINT_PAIRS[i % 10] {
        if i >= |before| {
          TableIndex(i, n);
        }
      }
    }
  }

  lemma TableIndex(i: int, n: nat)
    requires n > 0 && 10 * (n - 1) <= i < 10 * n
    ensures i % 10 == i - 10 * (n - 1)
  {
  }

  /** An executed step integrates every joint and then applies exactly sixty constraints: the
      table, in order, six times over. */
  lemma {:induction false} StepIsSixtyProjections(h: Metric, s: Ragdoll, w: World) returns (cs: seq<Constraint>)
    requires |s.points| == 9 && !s.settled
    ensures |cs| == 60 && AllFit(cs, 9) && forall i | 0 <= i < 60 :: cs[i] == CONSTRAINT_PAIRS[i % 10]
    ensures Step(h, s, w).points == Pass(h, AdvanceAll(s.points, w), cs)
  {
    hide Solve, Pass, Advance, AnyMoving, Drips;
    cs := SolveIsOnePass(h, AdvanceAll(s.points, w), 6);
  }

  // ---------------------------------------------------------------- rebound

  /** What floor contact does to one joint's vertical momentum. */
  lemma ReboundMomentum(p: Point, w: World)
    requires Hits(p, w)
    ensures MomentumY(Advance(p, w)) == -((0.15 * p.m + 0.06) * (w.floor - p.y))
  {
    hide VelX, VelY;
    var d, inv := w.floor - p.y, 1.0 / p.m;
    var q := Advance(p, w);
    assert q.y - q.oy == -(d * (0.15 + 0.06 * inv));
    BounceAlgebra(p.m, inv, d);
  }

  lemma BounceAlgebra(m: real, inv: real, d: real)
    requires m * inv == 1.0
    ensures m * -(d * (0.15 + 0.06 * inv)) == -((0.15 * m + 0.06) * d)
  {
    assert m * (d * (0.15 + 0.06 * inv)) == d * (0.15 * m + 0.06 * (m * inv));
  }

  ghost function Depth(w: World): Point -> real {
    (p: Point) => -((0.15 * p.m + 0.06) * (w.floor - p.y))
  }

  /** A body that all reaches the floor leaves it with the momentum its heights give it. */
  lemma {:induction false} BodyRebound(b: seq<Point>, w: World)
    requires IsBody(b) && forall i | 0 <= i < 9 :: Hits(b[i], w)
    ensures Sum(MomentumY, AdvanceAll(b, w)) == Sum(Depth(w), b)
  {
    hide Advance, MomentumY, Hits;
    forall i | 0 <= i < 9 ensures MomentumY(AdvanceAll(b, w)[i]) == Depth(w)(b[i]) {
      ReboundMomentum(b[i], w);
    }
    hide Depth;
    SumPointwise(MomentumY, AdvanceAll(b, w), Depth(w), b);
  }

  /** From one common height d above the floor that momentum is -12.915 d. */
  lemma {:induction false} CommonRebound(b: seq<Point>, w: World, d: real)
    requires IsBody(b) && forall i | 0 <= i < 9 :: Hits(b[i], w) && b[i].y == w.floor - d
    ensures Sum(MomentumY, AdvanceAll(b, w)) == -12.915 * d
  {
    hide Advance, MomentumY, Hits, AdvanceAll;
    BodyRebound(b, w);
    SumOfNine(Depth(w), b);
  }

  // ---------------------------------------------------------------- damping

  ghost predicate MovesAsOne(b: seq<Point>, vx: real, vy: real) {
    forall i | 0 <= i < |b| :: b[i].x - b[i].ox == vx && b[i].y - b[i].oy == vy
  }

  ghost function DampedMass(p: Point): real { p.m * Damping(p.m) }

  lemma {:induction false} BodyDampedMass(b: seq<Point>)
    requires IsBody(b)
    ensures Sum(DampedMass, b) == 78.021796875
  {
    SumOfNine(DampedMass, b);
  }

  /** Integrating a body in common motion leaves 78.021796875 of its 82.5 units of moving mass
      per unit of velocity: all of it in flight, the friction factor's share sideways when
      every joint is on the floor. */
  lemma {:induction false} CommonMotionDamped(b: seq<Point>, w: World, vx: real, vy: real)
    requires IsBody(b) && MovesAsOne(b, vx, vy)
    ensures (forall i | 0 <= i < 9 :: !Hits(b[i], w)) ==>
              && Sum(MomentumX, AdvanceAll(b, w)) == 78.021796875 * vx
              && Sum(MomentumY, AdvanceAll(b, w)) == 78.021796875 * vy + 83.22 * w.gravity
    ensures (forall i | 0 <= i < 9 :: Hits(b[i], w)) ==>
              Sum(MomentumX, AdvanceAll(b, w)) == 78.021796875 * (vx * w.friction)
  {
    hide Advance, AdvanceAll, Hits, MomentumX, MomentumY, Sum, MovesAsOne;
    var a := AdvanceAll(b, w);
    if forall i | 0 <= i < 9 :: !Hits(b[i], w) {
      InFlight(b, a, w, vx, vy);
    }
    if forall i | 0 <= i < 9 :: Hits(b[i], w) {
      OnFloor(b, a, w, vx, vy);
    }
  }

  lemma {:induction false} OnFloor(b: seq<Point>, a: seq<Point>, w: World, vx: real, vy: real)
    requires IsBody(b) && MovesAsOne(b, vx, vy) && a == AdvanceAll(b, w)
    requires forall i | 0 <= i < 9 :: Hits(b[i], w)
    ensures Sum(MomentumX, a) == 78.021796875 * (vx * w.friction)
  {
    hide Advance, Hits, MomentumX, DampedMass;
    forall i | 0 <= i < 9 ensures MomentumX(a[i]) == (vx * w.friction) * DampedMass(b[i]) {
      SlidingMomentum(b[i], w, vx);
    }
    SumScaled(MomentumX, a, DampedMass, b, vx * w.friction);
    BodyDampedMass(b);
  }

  lemma {:induction false} InFlight(b: seq<Point>, a: seq<Point>, w: World, vx: real, vy: real)
    requires IsBody(b) && MovesAsOne(b, vx, vy) && a == AdvanceAll(b, w)
    requires forall i | 0 <= i < 9 :: !Hits(b[i], w)
    ensures Sum(MomentumX, a) == 78.021796875 * vx
    ensures Sum(MomentumY, a) == 78.021796875 * vy + 83.22 * w.gravity
  {
    hide Advance, Hits, Weight, MomentumX, MomentumY, DampedMass;
    forall i | 0 <= i < 9
      ensures MomentumX(a[i]) == vx * DampedMass(b[i])
      ensures MomentumY(a[i]) == Flight(w, vy)(b[i])
    {
      FlyingMomentum(b[i], w, vx, vy);
    }
    SumScaled(MomentumX, a, DampedMass, b, vx);
    SumPointwise(MomentumY, a, Flight(w, vy), b);
    FlightSum(b, w, vy);
    BodyDampedMass(b);
    BodyWeight(b, w);
  }

  /** Vertical momentum after a free step of a joint that had velocity vy. */
  ghost function Flight(w: World, vy: real): Point -> real {
    (p: Point) => vy * DampedMass(p) + Weight(w)(p)
  }

  ghost function DampedAt(vy: real): Point -> real {
    (p: Point) => vy * DampedMass(p)
  }

  lemma {:induction false} FlightSum(b: seq<Point>, w: World, vy: real)
    ensures Sum(Flight(w, vy), b) == vy * Sum(DampedMass, b) + Sum(Weight(w), b)
  {
    hide DampedMass, Weight;
    SumMinus(DampedAt(vy), b, Flight(w, vy), Weight(w), b);
    SumScaled(DampedAt(vy), b, DampedMass, b, vy);
  }

  lemma FlyingMomentum(p: Point, w: World, vx: real, vy: real)
    requires !Hits(p, w) && p.x - p.ox == vx && p.y - p.oy == vy
    ensures MomentumX(Advance(p, w)) == vx * DampedMass(p)
    ensures MomentumY(Advance(p, w)) == vy * DampedMass(p) + Weight(w)(p)
  {
    hide Damping;
    var d, g := Damping(p.m), w.gravity * (1.0 + (1.0 / p.m) * 0.08);
    var q := Advance(p, w);
    assert q.x - q.ox == vx * d && q.y - q.oy == vy * d + g;
    Distribute(p.m, vy * d, g);
  }

  lemma SlidingMomentum(p: Point, w: World, vx: real)
    requires Hits(p, w) && p.x - p.ox == vx
    ensures MomentumX(Advance(p, w)) == (vx * w.friction) * DampedMass(p)
  {
    hide Damping, VelY, Restitution;
    var q := Advance(p, w);
    assert q.x - q.ox == (vx * Damping(p.m)) * w.friction;
  }

  lemma {:induction false} SumScaled(f: Point -> real, a: seq<Point>, g: Point -> real, b: seq<Point>, k: real)
    requires |a| == |b| && forall i | 0 <= i < |b| :: f(a[i]) == k * g(b[i])
    ensures Sum(f, a) == k * Sum(g, b)
  {
    if |b| > 0 {
      var n := |b| - 1;
      assert forall i | 0 <= i < n :: a[..n][i] == a[i] && b[..n][i] == b[i];
      SumScaled(f, a[..n], g, b[..n], k);
      Distribute(k, Sum(g, b[..n]), g(b[n]));
    }
  }

  // ---------------------------------------------------------------- kinetic energy

  /** A body moving as one has the energy of its whole mass at that velocity. */
  lemma {:induction false} CommonMotionEnergy(b: seq<Point>, vx: real, vy: real)
    requires IsBody(b) && MovesAsOne(b, vx, vy)
    ensures Sum(Kinetic, b) == 41.25 * (vx * vx + vy * vy)
  {
    var e := 0.5 * (vx * vx + vy * vy);
    forall i | 0 <= i < 9 ensures Kinetic(b[i]) == e * MassOf(b[i]) {
      EnergyPerMass(b[i], vx, vy);
    }
    hide Kinetic, MassOf;
    SumScaled(Kinetic, b, MassOf, b, e);
    BodyMass(b);
  }

  lemma EnergyPerMass(p: Point, vx: real, vy: real)
    requires p.x - p.ox == vx && p.y - p.oy == vy
    ensures Kinetic(p) == 0.5 * (vx * vx + vy * vy) * MassOf(p)
  {
  }

  /** The joints' momenta as an impulse meets them. */
  ghost function StruckX(b: seq<Point>): real
    requires |b| == 9
  {
    13.0 * (b[0].x - b[0].ox) + 6.3 * (b[1].x - b[1].ox) + 10.8 * (b[2].x - b[2].ox) + 4.5 * (b[3].x - b[3].ox)
    + 9.6 * (b[4].x - b[4].ox) + 0.8 * (b[5].x - b[5].ox) + 0.8 * (b[6].x - b[6].ox)
  }

  ghost function StruckY(b: seq<Point>): real
    requires |b| == 9
  {
    10.0 * (b[0].y - b[0].oy) + 4.2 * (b[1].y - b[1].oy)
  }

  /** The work an impulse does on any body. */
  lemma {:induction false} ImpulseEnergy(b: seq<Point>, ix: real, iy: real)
    requires IsBody(b)
    ensures Sum(Kinetic, Kicked(b, ix, iy))
            == Sum(Kinetic, b) + ix * StruckX(b) + iy * StruckY(b) + 31.695 * (ix * ix) + 12.52 * (iy * iy)
  {
    SumOfNine(Kinetic, b);
    SumOfNine(Kinetic, Kicked(b, ix, iy));
  }

  /** From rest, and so for a fresh ragdoll, that is 31.695 ix^2 + 12.52 iy^2. */
  lemma {:induction false} RestImpulseEnergy(b: seq<Point>, ix: real, iy: real)
    requires IsBody(b) && AtRest(b)
    ensures Sum(Kinetic, Kicked(b, ix, iy)) == 31.695 * (ix * ix) + 12.52 * (iy * iy)
  {
    hide Kicked, Kinetic, Sum;
    ImpulseEnergy(b, ix, iy);
    EnergyOfBody(b);
    assert StruckX(b) == 0.0 && StruckY(b) == 0.0;
  }

  lemma {:induction false} StandingImpulseEnergy(xBase: real, yBase: real, facing: real, ix: real, iy: real)
    ensures Sum(Kinetic, ApplyImpulse(Standing(xBase, yBase, facing), ix, iy).points)
            == 31.695 * (ix * ix) + 12.52 * (iy * iy)
  {
    hide Kicked, Kinetic, Sum;
    RestImpulseEnergy(StandingPoints(xBase, yBase, facing), ix, iy);
  }

  // ---------------------------------------------------------------- the standing pose

  /** The standing pose: head, neck and hips above the base, the right side 3 and 2 along the
      facing, the left side opposite. */
  lemma {:induction false} StandingShape(xBase: real, yBase: real, f: real)
    ensures var b := StandingPoints(xBase, yBase, f);
            && b[0].x == b[1].x == b[4].x == xBase
            && b[2].x - b[3].x == 6.0 * f && b[5].x - b[6].x == 4.0 * f && b[7].x - b[8].x == 4.0 * f
            && b[2].x + b[3].x == b[5].x + b[6].x == b[7].x + b[8].x == 2.0 * xBase
            && b[0].y == yBase - 14.0 && b[1].y == yBase - 11.0 && b[2].y == b[3].y == yBase - 10.0
            && b[4].y == yBase - 4.0 && b[5].y == b[6].y == yBase - 1.0 && b[7].y == b[8].y == yBase
  {
  }

  /** A ragdoll faces, through every run, the way it was built. */
  lemma {:induction false} RunKeepsFacing(h: Metric, xBase: real, yBase: real, f: real, es: seq<Event>)
    ensures Run(h, Standing(xBase, yBase, f), es).facing == f
  {
    if |es| > 0 {
      hide Solve, AdvanceAll, AnyMoving, Drips, Kicked, StandingPoints;
      RunKeepsFacing(h, xBase, yBase, f, es[..|es| - 1]);
    }
  }

  /** Per constraint: horizontal separation per unit of facing, and vertical separation, of its
      joints in the standing pose. */
  const SPREAD: seq<real> := [0.0, 3.0, -3.0, 0.0, 2.0, -2.0, 0.0, 0.0, -3.0, 3.0]
  const DROP: seq<real> := [3.0, 1.0, 1.0, 7.0, 3.0, 3.0, 1.0, 1.0, 6.0, 6.0]

  lemma {:induction false} StandingOffsets(xBase: real, yBase: real, f: real, k: nat)
    requires k < 10
    ensures var b, c := StandingPoints(xBase, yBase, f), CONSTRAINT_PAIRS[k];
            && |b| == 9 && b[c.second].x - b[c.first].x == SPREAD[k] * f
            && b[c.second].y - b[c.first].y == DROP[k] != 0.0
  {
  }

  /** A constraint of the standing pose is satisfied exactly when the facing gives its pair the
      rest length. */
  lemma {:induction false} StandingSatisfiedIff(xBase: real, yBase: real, f: real, k: nat)
    requires k < 10
    ensures var c := CONSTRAINT_PAIRS[k];
            Satisfied(StandingPoints(xBase, yBase, f), c)
            <==> (SPREAD[k] * SPREAD[k]) * (f * f) + DROP[k] * DROP[k] == c.rest * c.rest
  {
    hide StandingPoints;
    var b, c := StandingPoints(xBase, yBase, f), CONSTRAINT_PAIRS[k];
    StandingOffsets(xBase, yBase, f, k);
    OffsetPair(b[c.first], b[c.second], SPREAD[k], f, DROP[k]);
  }

  lemma OffsetPair(p: Point, q: Point, spread: real, f: real, drop: real)
    requires q.x - p.x == spread * f && q.y - p.y == drop != 0.0
    ensures !Coincide(p, q) && SepSq(p, q) == (spread * spread) * (f * f) + drop * drop
  {
    var dx := q.x - p.x;
    assert SepSq(p, q) == dx * dx + drop * drop;
    assert dx * dx == (spread * spread) * (f * f);
  }

  /** For facing 1 or -1 that is never; for any facing it is not for the head, the spine and
      the shins. */
  lemma {:induction false} StandingUnsatisfied(xBase: real, yBase: real, f: real, k: nat)
    requires k < 10 && (f == 1.0 || f == -1.0 || k == 0 || k == 3 || k == 6 || k == 7)
    ensures !Satisfied(StandingPoints(xBase, yBase, f), CONSTRAINT_PAIRS[k])
  {
    hide Satisfied, StandingPoints;
    StandingSatisfiedIff(xBase, yBase, f, k);
  }

  /** So a fresh ragdoll of any facing but 0 can gain kinetic energy from the constraints: for
      some velocity, its very first pass adds some. */
  lemma {:induction false} FirstPassCanHeat(h: Metric, xBase: real, yBase: real, f: real)
    requires IsHypot(h) && f != 0.0
    ensures !PassSafe(h, StandingPoints(xBase, yBase, f))
  {
    hide IsHypot, PassSafe, Satisfied;
    StandingUnsatisfied(xBase, yBase, f, 0);
    StandingNotInLine(xBase, yBase, f);
    PassSafeIff(h, StandingPoints(xBase, yBase, f));
  }

  lemma {:induction false} StandingNotInLine(xBase: real, yBase: real, f: real)
    requires f != 0.0
    ensures var b := StandingPoints(xBase, yBase, f);
            !Collinear(b[1], b[2], b[4]) && !Collinear(b[1], b[3], b[4])
  {
  }
}
