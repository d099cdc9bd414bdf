/** A conserved quantity. Damping differs from joint to joint, so momentum is not a function
    of itself from one step to the next; mass moment minus damped previous moment is. */
module Drift {
  import opened Model
  import opened Sums
  import opened Solver
  import opened Integration
  import opened Runs

  /** Position minus damped previous position, and its mass-weighted form. */
  ghost function Slip(x: real, ox: real, d: real): real { x - d * ox }

  ghost function SlipX(p: Point): real { Slip(p.x, p.ox, Damping(p.m)) }
  ghost function SlipY(p: Point): real { Slip(p.y, p.oy, Damping(p.m)) }

  ghost function DriftX(p: Point): real { p.m * SlipX(p) }
  ghost function DriftY(p: Point): real { p.m * SlipY(p) }

  ghost function AnchorX(p: Point): real { p.m * (Damping(p.m) * p.ox) }
  ghost function AnchorY(p: Point): real { p.m * (Damping(p.m) * p.oy) }

  lemma {:induction false} SolveKeepsDrift(h: Metric, b: seq<Point>, n: nat)
    requires |b| == 9
    ensures Sum(DriftX, Solve(h, b, n)) == Sum(DriftX, b)
    ensures Sum(DriftY, Solve(h, b, n)) == Sum(DriftY, b)
  {
    hide Solve, Damping;
    var r := Solve(h, b, n);
    SolveKeeps(h, b, n);
    SumPointwise(AnchorX, r, AnchorX, b);
    SumPointwise(AnchorY, r, AnchorY, b);
    hide AnchorX, AnchorY, MomentX, MomentY, DriftX, DriftY;
    DriftIsMomentMinusAnchor(b);
    DriftIsMomentMinusAnchor(r);
  }

  lemma {:induction false} DriftIsMomentMinusAnchor(b: seq<Point>)
    ensures Sum(DriftX, b) == Sum(MomentX, b) - Sum(AnchorX, b)
    ensures Sum(DriftY, b) == Sum(MomentY, b) - Sum(AnchorY, b)
  {
    hide Damping;
    SumMinus(DriftX, b, MomentX, AnchorX, b);
    SumMinus(DriftY, b, MomentY, AnchorY, b);
  }

  /** What a landing takes out of the slip, and of the drift. */
  ghost function Scrape(v: real, d: real, f: real): real {
    d * v * (1.0 - f)
  }

  ghost function Thud(y: real, v: real, d: real, r: real, floor: real): real {
    (y + v - floor) + d * (1.0 + r) * (floor - y)
  }

  ghost function GrabX(p: Point, w: World): real {
    if Hits(p, w) then Scrape(VelX(p), Damping(p.m), w.friction) else 0.0
  }

  ghost function GrabY(p: Point, w: World): real {
    if Hits(p, w) then Thud(p.y, VelY(p, w), Damping(p.m), Restitution(p.m), w.floor) else 0.0
  }

  ghost function FrictionLoss(w: World): Point -> real { (p: Point) => p.m * GrabX(p, w) }
  ghost function LandingLoss(w: World): Point -> real { (p: Point) => p.m * GrabY(p, w) }

  lemma DampedMove(x: real, ox: real, d: real, v: real, f: real, x': real, ox': real)
    requires v == (x - ox) * d && x' == x + v
    ensures ox' == x ==> Slip(x', ox', d) == Slip(x, ox, d)
    ensures ox' == x' - (x' - x) * f ==> Slip(x', ox', d) == Slip(x, ox, d) - Scrape(v, d, f)
  {
    if ox' == x' - (x' - x) * f {
      assert ox' == x + v * (1.0 - f);
      assert d * ox' == d * x + d * v * (1.0 - f);
    }
  }

  lemma AdvanceSlipX(p: Point, w: World)
    ensures SlipX(Advance(p, w)) == SlipX(p) - GrabX(p, w)
  {
    hide Damping, VelX, Hits, Restitution, VelY, Slip, Scrape;
    VelocityParts(p, w, w.gravity * (1.0 + (1.0 / p.m) * 0.08));
    DampedMove(p.x, p.ox, Damping(p.m), VelX(p), w.friction, Advance(p, w).x, Advance(p, w).ox);
  }

  lemma VelocityParts(p: Point, w: World, g: real)
    requires g == w.gravity * (1.0 + (1.0 / p.m) * 0.08)
    ensures VelX(p) == (p.x - p.ox) * Damping(p.m)
    ensures VelY(p, w) == (p.y - p.oy) * Damping(p.m) + g
    ensures Weight(w)(p) == p.m * g
  {
    hide Damping;
  }

  lemma DampedFall(y: real, oy: real, d: real, v: real, g: real, floor: real, r: real, y': real, oy': real)
    requires v == (y - oy) * d + g
    ensures y' == y + v && oy' == y ==> Slip(y', oy', d) == Slip(y, oy, d) + g
    ensures y' == floor && oy' == floor + (floor - y) * r ==>
              Slip(y', oy', d) == Slip(y, oy, d) + g - Thud(y, v, d, r, floor)
  {
    if y' == floor && oy' == floor + (floor - y) * r {
      assert oy' == y + (1.0 + r) * (floor - y);
      assert d * oy' == d * y + d * (1.0 + r) * (floor - y);
    }
  }

  lemma AdvanceSlipY(p: Point, w: World, g: real)
    requires g == w.gravity * (1.0 + (1.0 / p.m) * 0.08)
    ensures SlipY(Advance(p, w)) == SlipY(p) + g - GrabY(p, w)
  {
    hide Damping, VelX, VelY, Hits, Restitution, Slip, Thud;
    VelocityParts(p, w, g);
    DampedFall(p.y, p.oy, Damping(p.m), VelY(p, w), g, w.floor, Restitution(p.m), Advance(p, w).y, Advance(p, w).oy);
  }

  /** Multiplying a sum of known parts by a mass. */
  lemma Weighed(m: real, t: real, a: real, b: real, c: real)
    requires t == a + b - c
    ensures m * t == m * a + m * b - m * c
  {
  }

  lemma AdvanceDrift(p: Point, w: World)
    ensures DriftX(Advance(p, w)) == DriftX(p) - FrictionLoss(w)(p)
    ensures DriftY(Advance(p, w)) == DriftY(p) + Weight(w)(p) - LandingLoss(w)(p)
  {
    hide SlipX, SlipY, GrabX, GrabY, Advance, VelX, VelY, Weight, Damping;
    var g := w.gravity * (1.0 + (1.0 / p.m) * 0.08);
    AdvanceMoments(p, w);
    AdvanceSlipX(p, w);
    AdvanceSlipY(p, w, g);
    VelocityParts(p, w, g);
    Weighed(p.m, SlipX(Advance(p, w)), SlipX(p), 0.0, GrabX(p, w));
    Weighed(p.m, SlipY(Advance(p, w)), SlipY(p), g, GrabY(p, w));
  }

  /** Over an unsettled step, from any state, the drift changes by gravity and by what the
      landings take, and by nothing else. */
  lemma {:induction false} StepDrift(h: Metric, s: Ragdoll, w: World)
    requires IsBody(s.points) && !s.settled
    ensures Sum(DriftX, Step(h, s, w).points) == Sum(DriftX, s.points) - Sum(FrictionLoss(w), s.points)
    ensures Sum(DriftY, Step(h, s, w).points)
            == Sum(DriftY, s.points) + 83.22 * w.gravity - Sum(LandingLoss(w), s.points)
  {
    hide Solve, Advance, DriftX, DriftY, FrictionLoss, LandingLoss, Weight;
    var a := AdvanceAll(s.points, w);
    SolveKeepsDrift(h, a, PASSES);
    BodyWeight(s.points, w);
    forall i | 0 <= i < 9
      ensures DriftX(a[i]) == DriftX(s.points[i]) - FrictionLoss(w)(s.points[i])
      ensures DriftY(a[i]) == DriftY(s.points[i]) + Weight(w)(s.points[i]) - LandingLoss(w)(s.points[i])
    {
      AdvanceDrift(s.points[i], w);
    }
    SumMinus(DriftX, a, DriftX, FrictionLoss(w), s.points);
    SumPlusMinus(DriftY, a, DriftY, Weight(w), LandingLoss(w), s.points);
  }

  lemma {:induction false} KickDrift(b: seq<Point>, ix: real, iy: real)
    requires IsBody(b)
    ensures Sum(DriftX, Kicked(b, ix, iy)) == Sum(DriftX, b) + 43.104703125 * ix
    ensures Sum(DriftY, Kicked(b, ix, iy)) == Sum(DriftY, b) + 13.26665625 * iy
  {
    SumOfNine(DriftX, b);
    SumOfNine(DriftX, Kicked(b, ix, iy));
    SumOfNine(DriftY, b);
    SumOfNine(DriftY, Kicked(b, ix, iy));
  }

  /** What one event puts into the drift of the state s it finds. */
  ghost function GainX(s: Ragdoll, e: Event): real {
    match e
    case Tick(w) => if s.settled then 0.0 else -Sum(FrictionLoss(w), s.points)
    case Impulse(ix, _) => 43.104703125 * ix
  }

  ghost function GainY(s: Ragdoll, e: Event): real {
    match e
    case Tick(w) => if s.settled then 0.0 else 83.22 * w.gravity - Sum(LandingLoss(w), s.points)
    case Impulse(_, iy) => 13.26665625 * iy
  }

  ghost function TotalGainX(h: Metric, s: Ragdoll, es: seq<Event>): real
    requires |s.points| == 9
  {
    if |es| == 0 then 0.0
    else TotalGainX(h, s, es[..|es| - 1]) + GainX(Run(h, s, es[..|es| - 1]), es[|es| - 1])
  }

  ghost function TotalGainY(h: Metric, s: Ragdoll, es: seq<Event>): real
    requires |s.points| == 9
  {
    if |es| == 0 then 0.0
    else TotalGainY(h, s, es[..|es| - 1]) + GainY(Run(h, s, es[..|es| - 1]), es[|es| - 1])
  }

  lemma {:induction false} ApplyDrift(h: Metric, s: Ragdoll, e: Event)
    requires IsBody(s.points)
    ensures Sum(DriftX, Apply(h, s, e).points) == Sum(DriftX, s.points) + GainX(s, e)
    ensures Sum(DriftY, Apply(h, s, e).points) == Sum(DriftY, s.points) + GainY(s, e)
  {
    hide Step, Kicked, DriftX, DriftY, FrictionLoss, LandingLoss;
    match e
    case Tick(w) =>
      if s.settled {
        StepWhenSettled(h, s, w);
      } else {
        StepDrift(h, s, w);
      }
    case Impulse(ix, iy) => KickDrift(s.points, ix, iy);
  }

  /** The account of every run: impulses, gravity and landings are the only entries, and the
      solver, over any number of steps, appears in none of them. */
  lemma {:induction false} RunDrift(h: Metric, s: Ragdoll, es: seq<Event>)
    requires IsBody(s.points)
    ensures Sum(DriftX, Run(h, s, es).points) == Sum(DriftX, s.points) + TotalGainX(h, s, es)
    ensures Sum(DriftY, Run(h, s, es).points) == Sum(DriftY, s.points) + TotalGainY(h, s, es)
  {
    if |es| > 0 {
      hide Apply, DriftX, DriftY, IsBody, GainX, GainY;
      RunDrift(h, s, es[..|es| - 1]);
      RunKeepsBody(h, s, es[..|es| - 1]);
      ApplyDrift(h, Run(h, s, es[..|es| - 1]), es[|es| - 1]);
    }
  }

  /** Every step of the run is executed and brings no joint to the floor. */
  ghost predicate Airborne(h: Metric, s: Ragdoll, es: seq<Event>)
    requires |s.points| == 9
  {
    if |es| == 0 then true else
      var r, e := Run(h, s, es[..|es| - 1]), es[|es| - 1];
      && Airborne(h, s, es[..|es| - 1])
      && (e.Tick? ==> !r.settled && forall i | 0 <= i < 9 :: !Hits(r.points[i], e.world))
  }

  ghost function TotalGravity(es: seq<Event>): real {
    if |es| == 0 then 0.0
    else TotalGravity(es[..|es| - 1]) + (if es[|es| - 1].Tick? then es[|es| - 1].world.gravity else 0.0)
  }

  lemma {:induction false} NoLanding(b: seq<Point>, w: World)
    requires forall i | 0 <= i < |b| :: !Hits(b[i], w)
    ensures Sum(FrictionLoss(w), b) == 0.0 && Sum(LandingLoss(w), b) == 0.0
  {
    hide Hits;
    SumAbsBound(FrictionLoss(w), MassOf, b, 0.0);
    SumAbsBound(LandingLoss(w), MassOf, b, 0.0);
  }

  lemma {:induction false} AirborneGain(h: Metric, s: Ragdoll, es: seq<Event>)
    requires |s.points| == 9 && Airborne(h, s, es)
    ensures TotalGainX(h, s, es) == 43.104703125 * TotalX(es)
    ensures TotalGainY(h, s, es) == 13.26665625 * TotalY(es) + 83.22 * TotalGravity(es)
  {
    if |es| > 0 {
      hide Apply, FrictionLoss, LandingLoss, Hits;
      var r, e := Run(h, s, es[..|es| - 1]), es[|es| - 1];
      AirborneGain(h, s, es[..|es| - 1]);
      if e.Tick? {
        NoLanding(r.points, e.world);
      }
    }
  }

  /** On every airborne run the drift is conserved, up to the impulses and the gravity put in:
      sixty projections a step and the joints' different dampings leave no trace in it. */
  lemma {:induction false} AirborneDrift(h: Metric, s: Ragdoll, es: seq<Event>)
    requires IsBody(s.points) && Airborne(h, s, es)
    ensures Sum(DriftX, Run(h, s, es).points) == Sum(DriftX, s.points) + 43.104703125 * TotalX(es)
    ensures Sum(DriftY, Run(h, s, es).points)
            == Sum(DriftY, s.points) + 13.26665625 * TotalY(es) + 83.22 * TotalGravity(es)
  {
    hide DriftX, DriftY;
    RunDrift(h, s, es);
    AirborneGain(h, s, es);
  }
}
