/** The simulation has no preferred place and no preferred side: reflecting or translating a
    ragdoll and everything that is done to it reflects or translates the whole run. */
module Symmetry {
  import opened Algebra
  import opened Model

  /** Reflection of x (or not), then a translation. */
  datatype Motion = Motion(flip: bool, dx: real, dy: real)

  ghost function Turned(g: Motion, v: real): real {
    if g.flip then -v else v
  }

  ghost function MapX(g: Motion, x: real): real {
    Turned(g, x) + g.dx
  }

  ghost function MapPoint(g: Motion, p: Point): Point {
    Point(MapX(g, p.x), p.y + g.dy, MapX(g, p.ox), p.oy + g.dy, p.m)
  }

  ghost function MapBody(g: Motion, b: seq<Point>): seq<Point> {
    seq(|b|, i requires 0 <= i < |b| => MapPoint(g, b[i]))
  }

  ghost function MapWorld(g: Motion, w: World): World {
    w.(floor := w.floor + g.dy)
  }

  ghost function MapDrip(g: Motion, d: Drip): Drip {
    Drip(MapX(g, d.x), d.y + g.dy, d.speed)
  }

  ghost function MapDrips(g: Motion, ds: seq<Drip>): seq<Drip> {
    seq(|ds|, i requires 0 <= i < |ds| => MapDrip(g, ds[i]))
  }

  ghost function MapTrail(g: Motion, ts: seq<Spot>): seq<Spot> {
    seq(|ts|, i requires 0 <= i < |ts| => Spot(MapX(g, ts[i].x), ts[i].y + g.dy))
  }

  /** The moved ragdoll: settled flag, frame count and impact speeds stay. */
  ghost function MapRagdoll(g: Motion, s: Ragdoll): Ragdoll {
    Ragdoll(MapBody(g, s.points), Turned(g, s.facing), s.settled, s.frame, MapDrips(g, s.drips), MapTrail(g, s.trail))
  }

  ghost function MapEvent(g: Motion, e: Event): Event {
    match e
    case Tick(w) => Tick(MapWorld(g, w))
    case Impulse(ix, iy) => Impulse(Turned(g, ix), iy)
  }

  ghost function MapEvents(g: Motion, es: seq<Event>): seq<Event> {
    seq(|es|, i requires 0 <= i < |es| => MapEvent(g, es[i]))
  }

  // ---------------------------------------------------------------- integration

  lemma VelocityCommutes(g: Motion, p: Point, w: World)
    ensures VelX(MapPoint(g, p)) == Turned(g, VelX(p)) && VelY(MapPoint(g, p), MapWorld(g, w)) == VelY(p, w)
    ensures Hits(MapPoint(g, p), MapWorld(g, w)) == Hits(p, w)
    ensures Moving(MapPoint(g, p)) == Moving(p)
  {
    hide Damping;
    TurnedProduct(g, p.x - p.ox, Damping(p.m));
  }

  lemma AdvanceCommutes(g: Motion, p: Point, w: World)
    ensures Advance(MapPoint(g, p), MapWorld(g, w)) == MapPoint(g, Advance(p, w))
    ensures DripOf(MapPoint(g, p), MapWorld(g, w)) == MapDrips(g, DripOf(p, w))
  {
    hide VelX, VelY, Hits, Restitution;
    VelocityCommutes(g, p, w);
    TurnedProduct(g, VelX(p), w.friction);
  }

  lemma TurnedProduct(g: Motion, a: real, k: real)
    ensures Turned(g, a) * k == Turned(g, a * k)
  {
  }

  lemma {:induction false} DripsCommute(g: Motion, b: seq<Point>, w: World)
    ensures Drips(MapBody(g, b), MapWorld(g, w)) == MapDrips(g, Drips(b, w))
  {
    if |b| > 0 {
      var n := |b| - 1;
      assert MapBody(g, b)[..n] == MapBody(g, b[..n]);
      DripsCommute(g, b[..n], w);
      AdvanceCommutes(g, b[n], w);
    }
  }

  // ---------------------------------------------------------------- solver

  lemma SameSquare(a: real, b: real)
    requires a >= 0.0 && b >= 0.0 && a * a == b * b
    ensures a == b
  {
    RootLe(a, b);
    RootLe(b, a);
  }

  lemma MetricIsEven(h: Metric, a: real, b: real)
    requires IsHypot(h)
    ensures h(-a, b) == h(a, b)
  {
    assert h(-a, b) * h(-a, b) == (-a) * (-a) + b * b;
    assert h(a, b) * h(a, b) == a * a + b * b;
    SameSquare(h(-a, b), h(a, b));
  }

  lemma ExcessCommutes(h: Metric, g: Motion, p: Point, q: Point, rest: real)
    requires IsHypot(h)
    ensures Excess(h, MapPoint(g, p), MapPoint(g, q), rest) == Excess(h, p, q, rest)
  {
    var p', q' := MapPoint(g, p), MapPoint(g, q);
    MetricIsEven(h, q.x - p.x, q.y - p.y);
    assert q'.x - p'.x == Turned(g, q.x - p.x) && q'.y - p'.y == q.y - p.y;
    assert Length(h, q'.x - p'.x, q'.y - p'.y) == Length(h, q.x - p.x, q.y - p.y);
    hide Length;
  }

  lemma PairCommutes(h: Metric, g: Motion, p: Point, q: Point, rest: real)
    requires IsHypot(h)
    ensures FirstMoved(h, MapPoint(g, p), MapPoint(g, q), rest) == MapPoint(g, FirstMoved(h, p, q, rest))
    ensures SecondMoved(h, MapPoint(g, p), MapPoint(g, q), rest) == MapPoint(g, SecondMoved(h, p, q, rest))
  {
    hide Excess, Share, IsHypot, Correction;
    var k, l, e := Share(q.m, p.m + q.m), Share(p.m, p.m + q.m), Excess(h, p, q, rest);
    ExcessCommutes(h, g, p, q, rest);
    TurnedCorrection(g, q.x - p.x, k, e);
    TurnedCorrection(g, q.x - p.x, l, e);
  }

  lemma TurnedCorrection(g: Motion, d: real, k: real, e: real)
    ensures Correction(Turned(g, d), k, e) == Turned(g, Correction(d, k, e))
  {
    TurnedProduct(g, d, k);
    TurnedProduct(g, d * k, e);
  }

  lemma {:induction false} ProjectCommutes(h: Metric, g: Motion, b: seq<Point>, c: Constraint)
    requires IsHypot(h) && Fits(c, |b|)
    ensures Project(h, MapBody(g, b), c) == MapBody(g, Project(h, b, c))
  {
    PairCommutes(h, g, b[c.first], b[c.second], c.rest);
  }

  lemma {:induction false} PassCommutes(h: Metric, g: Motion, b: seq<Point>, cs: seq<Constraint>)
    requires IsHypot(h) && AllFit(cs, |b|)
    ensures Pass(h, MapBody(g, b), cs) == MapBody(g, Pass(h, b, cs))
  {
    if |cs| > 0 {
      hide Project;
      PassCommutes(h, g, b, cs[..|cs| - 1]);
      ProjectCommutes(h, g, Pass(h, b, cs[..|cs| - 1]), cs[|cs| - 1]);
    }
  }

  lemma {:induction false} SolveCommutes(h: Metric, g: Motion, b: seq<Point>, n: nat)
    requires IsHypot(h) && |b| == 9
    ensures Solve(h, MapBody(g, b), n) == MapBody(g, Solve(h, b, n))
  {
    if n > 0 {
      SolveCommutes(h, g, b, n - 1);
      PassCommutes(h, g, Solve(h, b, n - 1), CONSTRAINT_PAIRS);
    }
  }

  // ---------------------------------------------------------------- runs

  lemma {:induction false} IntegrationCommutes(g: Motion, b: seq<Point>, w: World)
    ensures AdvanceAll(MapBody(g, b), MapWorld(g, w)) == MapBody(g, AdvanceAll(b, w))
    ensures AnyMoving(AdvanceAll(MapBody(g, b), MapWorld(g, w))) == AnyMoving(AdvanceAll(b, w))
  {
    hide Advance, Moving;
    forall i | 0 <= i < |b|
      ensures Advance(MapPoint(g, b[i]), MapWorld(g, w)) == MapPoint(g, Advance(b[i], w))
      ensures Moving(MapPoint(g, Advance(b[i], w))) == Moving(Advance(b[i], w))
    {
      AdvanceCommutes(g, b[i], w);
      VelocityCommutes(g, Advance(b[i], w), w);
    }
    var l, r := AdvanceAll(MapBody(g, b), MapWorld(g, w)), AdvanceAll(b, w);
    assert l == MapBody(g, r);
    assert forall i | 0 <= i < |b| :: Moving(l[i]) == Moving(r[i]);
  }

  lemma {:induction false} StepCommutes(h: Metric, g: Motion, s: Ragdoll, w: World)
    requires IsHypot(h) && |s.points| == 9
    ensures Step(h, MapRagdoll(g, s), MapWorld(g, w)) == MapRagdoll(g, Step(h, s, w))
  {
    if !s.settled {
      hide Solve, AdvanceAll, AnyMoving, Drips;
      var ds := Drips(s.points, w);
      IntegrationCommutes(g, s.points, w);
      SolveCommutes(h, g, AdvanceAll(s.points, w), PASSES);
      DripsCommute(g, s.points, w);
      assert MapDrips(g, s.drips + ds) == MapDrips(g, s.drips) + MapDrips(g, ds);
      assert MapTrail(g, s.trail + Spots(ds)) == MapTrail(g, s.trail) + Spots(MapDrips(g, ds));
    }
  }

  lemma {:induction false} ImpulseCommutes(g: Motion, s: Ragdoll, ix: real, iy: real)
    requires |s.points| == 9
    ensures ApplyImpulse(MapRagdoll(g, s), Turned(g, ix), iy) == MapRagdoll(g, ApplyImpulse(s, ix, iy))
  {
    var l, r := Kicked(MapBody(g, s.points), Turned(g, ix), iy), MapBody(g, Kicked(s.points, ix, iy));
    forall i | 0 <= i < 9 ensures l[i] == r[i] {
      TurnedProduct(g, ix, KICK_X[i]);
    }
    assert l == r;
  }

  /** Moving a ragdoll and its whole history of steps and impulses moves every later state. */
  lemma {:induction false} RunCommutes(h: Metric, g: Motion, s: Ragdoll, es: seq<Event>)
    requires IsHypot(h) && |s.points| == 9
    ensures Run(h, MapRagdoll(g, s), MapEvents(g, es)) == MapRagdoll(g, Run(h, s, es))
  {
    if |es| > 0 {
      var n := |es| - 1;
      hide Step, Kicked;
      assert MapEvents(g, es)[..n] == MapEvents(g, es[..n]);
      RunCommutes(h, g, s, es[..n]);
      var r := Run(h, s, es[..n]);
      match es[n]
      case Tick(w) => StepCommutes(h, g, r, w);
      case Impulse(ix, iy) => ImpulseCommutes(g, r, ix, iy);
    }
  }

  /** A ragdoll built facing the other way and driven by mirrored impulses stays the exact
      reflection, about its base, of the original: after any interleaving. */
  lemma {:induction false} MirrorRuns(h: Metric, xBase: real, yBase: real, facing: real, es: seq<Event>)
    requires IsHypot(h)
    ensures var g := Motion(true, 2.0 * xBase, 0.0);
            Run(h, Standing(xBase, yBase, -facing), MapEvents(g, es))
            == MapRagdoll(g, Run(h, Standing(xBase, yBase, facing), es))
  {
    var g := Motion(true, 2.0 * xBase, 0.0);
    assert StandingPoints(xBase, yBase, -facing) == MapBody(g, StandingPoints(xBase, yBase, facing));
    assert Standing(xBase, yBase, -facing) == MapRagdoll(g, Standing(xBase, yBase, facing));
    RunCommutes(h, g, Standing(xBase, yBase, facing), es);
  }

  /** Building the ragdoll elsewhere, with the floors moved along, translates every run. */
  lemma {:induction false} ShiftedRuns(h: Metric, xBase: real, yBase: real, facing: real,
                                       dx: real, dy: real, es: seq<Event>)
    requires IsHypot(h)
    ensures var g := Motion(false, dx, dy);
            Run(h, Standing(xBase + dx, yBase + dy, facing), MapEvents(g, es))
            == MapRagdoll(g, Run(h, Standing(xBase, yBase, facing), es))
  {
    var g := Motion(false, dx, dy);
    assert StandingPoints(xBase + dx, yBase + dy, facing) == MapBody(g, StandingPoints(xBase, yBase, facing));
    assert Standing(xBase + dx, yBase + dy, facing) == MapRagdoll(g, Standing(xBase, yBase, facing));
    RunCommutes(h, g, Standing(xBase, yBase, facing), es);
  }
}
