/** The ragdoll as an object: joint records updated in place by the integration loop and by
    the nested constraint loops, proved to compute the functions of the value-level model. */
module RagdollObject {
  import opened Model
  import opened Sums
  import opened Runs

  /** A joint whose previous position has been moved back. */
  ghost function Pulled(p: Point, kx: real, ky: real): Point {
    p.(ox := p.ox - kx, oy := p.oy - ky)
  }

  /** A joint that has just moved, put on the floor. */
  ghost function Landing(p: Point, floor: real, friction: real): Point {
    Point(p.x, floor, p.x - (p.x - p.ox) * friction, floor + (floor - p.oy) * Restitution(p.m), p.m)
  }

  lemma AdvanceIsLanding(p: Point, w: World)
    ensures var moved := Point(p.x + VelX(p), p.y + VelY(p, w), p.x, p.y, p.m);
            Advance(p, w) == if Hits(p, w) then Landing(moved, w.floor, w.friction) else moved
    ensures Advance(p, w).x == p.x + VelX(p)
  {
    hide VelX, VelY, Restitution;
  }

  class Joint {
    var x: real
    var y: real
    var ox: real
    var oy: real
    const m: Mass

    constructor (x: real, y: real, m: Mass)
      ensures this.x == x && this.y == y && ox == x && oy == y && this.m == m
    {
      this.x, this.y, this.ox, this.oy, this.m := x, y, x, y, m;
    }

    ghost function Value(): Point
      reads this
    {
      Point(x, y, ox, oy, m)
    }

    /** Moves back the previous position. */
    method Pull(kx: real, ky: real)
      modifies this
      ensures Value() == Pulled(old(Value()), kx, ky)
    {
      ox := ox - kx;
      oy := oy - ky;
    }

    /** The damped velocity, with gravity, that the joint is about to move by. */
    method Velocity(gravity: real, invM: real) returns (vx: real, vy: real)
      requires invM == 1.0 / m
      ensures vx == VelX(Value()) && forall w: World | w.gravity == gravity :: vy == VelY(Value(), w)
    {
      var damping := 0.93 + 0.03 * Min(1.0, m / 32.0);
      vx := (x - ox) * damping;
      vy := (y - oy) * damping + gravity * (1.0 + invM * 0.08);
    }

    /** Floor contact: the joint is put on the floor, rebounds and is slowed by friction. */
    method Land(floorY: real, friction: real, invM: real)
      requires invM == 1.0 / m
      modifies this
      ensures Value() == Landing(old(Value()), floorY, friction)
    {
      y := floorY;
      var restitution := 0.15 + 0.06 * invM;
      assert restitution == Restitution(m);
      hide Restitution;
      oy := floorY + (y - oy) * restitution;
      ox := x - (x - ox) * friction;
    }

    /** One joint's share of the integration loop: the move, the floor contact, and whether
        an impact has to be logged. */
    method Integrate(floorY: real, gravity: real, friction: real) returns (moving: bool, drip: seq<Drip>)
      modifies this
      ensures Value() == Advance(old(Value()), World(floorY, gravity, friction))
      ensures moving == Moving(Value())
      ensures drip == DripOf(old(Value()), World(floorY, gravity, friction))
    {
      ghost var p, w := Value(), World(floorY, gravity, friction);
      var invM := 1.0 / m;
      hide VelX, VelY, Landing;
      var vx, vy := Velocity(gravity, invM);
      ox := x;
      oy := y;
      x := x + vx;
      y := y + vy;
      drip := [];
      AdvanceIsLanding(p, w);
      hide Advance;
      if y >= floorY {
        var impact := Abs(vy);
        Land(floorY, friction, invM);
        if impact > 1.0 {
          drip := [Drip(x, floorY, impact)];
        }
      }
      moving := Abs(x - ox) > 0.04 || Abs(y - oy) > 0.04;
    }
  }

  /** What a constraint needs to know of its pair: the excess and the two mass shares. */
  method Ratios(h: Metric, p: Joint, q: Joint, rest: real) returns (diff: real, w1: real, w2: real)
    ensures diff == Excess(h, p.Value(), q.Value(), rest)
    ensures w1 == Share(q.m, p.m + q.m) && w2 == Share(p.m, p.m + q.m)
  {
    var dist := h(q.x - p.x, q.y - p.y);
    if dist == 0.0 {
      dist := 0.001;
    }
    diff := (dist - rest) / dist;
    var total := p.m + q.m;
    w1 := q.m / total;
    w2 := p.m / total;
  }

  /** One distance constraint, applied in place to two joints. */
  method Constrain(h: Metric, p: Joint, q: Joint, rest: real)
    requires p != q
    modifies p, q
    ensures p.Value() == FirstMoved(h, old(p.Value()), old(q.Value()), rest)
    ensures q.Value() == SecondMoved(h, old(p.Value()), old(q.Value()), rest)
  {
    hide Excess, Share, Correction;
    var dx := q.x - p.x;
    var dy := q.y - p.y;
    var diff, w1, w2 := Ratios(h, p, q, rest);
    p.x := p.x + Correction(dx, w1, diff);
    p.y := p.y + Correction(dy, w1, diff);
    q.x := q.x - Correction(dx, w2, diff);
    q.y := q.y - Correction(dy, w2, diff);
  }

  ghost function Values(js: seq<Joint>): (b: seq<Point>)
    reads js
    ensures |b| == |js|
  {
    seq(|js|, i requires 0 <= i < |js| reads js => js[i].Value())
  }

  lemma {:induction false} IntegrationStart(b: seq<Point>, w: World)
    ensures AdvanceAll(b[..0], w) == [] && !AnyMoving([]) && Drips(b[..0], w) == [] && Spots([]) == []
  {
  }

  /** Integrating one more joint extends every result of the loop at its end. */
  lemma {:induction false} IntegrationSnoc(b: seq<Point>, i: nat, w: World)
    requires i < |b|
    ensures var a, p := AdvanceAll(b[..i], w), b[i];
            var v := a + b[i..];
            && v[i] == p
            && v[i := Advance(p, w)] == AdvanceAll(b[..i + 1], w) + b[i + 1..]
            && AdvanceAll(b[..i + 1], w) == a + [Advance(p, w)]
            && AnyMoving(AdvanceAll(b[..i + 1], w)) == (AnyMoving(a) || Moving(Advance(p, w)))
            && Drips(b[..i + 1], w) == Drips(b[..i], w) + DripOf(p, w)
            && Spots(Drips(b[..i + 1], w)) == Spots(Drips(b[..i], w)) + Spots(DripOf(p, w))
  {
    hide Advance, Moving, DripOf;
    var a, a' := AdvanceAll(b[..i], w), AdvanceAll(b[..i + 1], w);
    assert a' == a + [Advance(b[i], w)];
    assert a'[i] == Advance(b[i], w);
    assert forall k | 0 <= k < i :: a'[k] == a[k];
    assert b[..i + 1][..i] == b[..i];
    SpotsConcat(Drips(b[..i], w), DripOf(b[i], w));
  }

  ghost predicate Distinct(js: seq<Joint>) {
    forall i, j | 0 <= i < j < |js| :: js[i] != js[j]
  }

  method WithJoint(js: seq<Joint>, x: real, y: real, m: Mass) returns (r: seq<Joint>)
    requires Distinct(js)
    ensures Distinct(r) && |r| == |js| + 1 && Values(r) == old(Values(js)) + [Still(x, y, m)]
    ensures forall j | j in r :: j in js || fresh(j)
  {
    var j := new Joint(x, y, m);
    r := js + [j];
  }

  lemma NoJoints()
    ensures Distinct([]) && Values([]) == []
  {
  }

  /** The joints of a standing ragdoll: torso first, then the legs. */
  method AssembleTorso(xBase: real, yBase: real, f: real) returns (js: seq<Joint>)
    ensures Distinct(js) && |js| == 5 && Values(js) == StandingPoints(xBase, yBase, f)[..5]
    ensures forall j | j in js :: fresh(j)
  {
    hide Values, Distinct, Still;
    NoJoints();
    js := WithJoint([], xBase, yBase - 14.0, 5.0);
    js := WithJoint(js, xBase, yBase - 11.0, 3.5);
    js := WithJoint(js, xBase + f * 3.0, yBase - 10.0, 9.0);
    js := WithJoint(js, xBase - f * 3.0, yBase - 10.0, 9.0);
    js := WithJoint(js, xBase, yBase - 4.0, 32.0);
  }

  method AssembleLegs(torso: seq<Joint>, xBase: real, yBase: real, f: real) returns (js: seq<Joint>)
    requires Distinct(torso) && |torso| == 5 && Values(torso) == StandingPoints(xBase, yBase, f)[..5]
    ensures Distinct(js) && Values(js) == StandingPoints(xBase, yBase, f)
    ensures forall j | j in js :: j in torso || fresh(j)
  {
    hide Values, Distinct, Still;
    js := WithJoint(torso, xBase + f * 2.0, yBase - 1.0, 8.0);
    js := WithJoint(js, xBase - f * 2.0, yBase - 1.0, 8.0);
    js := WithJoint(js, xBase + f * 2.0, yBase, 4.0);
    js := WithJoint(js, xBase - f * 2.0, yBase, 4.0);
  }

  lemma {:induction false} BodyOfValues(js: seq<Joint>)
    requires IsBody(Values(js))
    ensures |js| == 9 && forall i | 0 <= i < 9 :: js[i].m == JOINT_MASS[i]
  {
    forall i | 0 <= i < 9 ensures js[i].m == JOINT_MASS[i] {
      assert Values(js)[i].m == JOINT_MASS[i];
    }
  }

  /** An impulse that has reached the first n joints. */
  ghost function KickedUpTo(b: seq<Point>, ix: real, iy: real, n: nat): (r: seq<Point>)
    requires |b| == 9
    ensures |r| == 9
  {
    seq(9, i requires 0 <= i < 9 => if i < n then KickedPoint(b[i], i, ix, iy) else b[i])
  }

  /** The stages v0, ..., v7 of an impulse: each pulls back one more joint of the last. */
  ghost predicate Extends(v: seq<Point>, i: nat, kx: real, ky: real, v': seq<Point>) {
    i < |v| && v[i := Pulled(v[i], kx, ky)] == v'
  }

  lemma {:induction false} KickNext(b: seq<Point>, ix: real, iy: real, i: nat, kx: real, ky: real)
    requires |b| == 9 && i < 9 && kx == ix * KICK_X[i] && ky == iy * KICK_Y[i]
    ensures Extends(KickedUpTo(b, ix, iy, i), i, kx, ky, KickedUpTo(b, ix, iy, i + 1))
  {
    hide KickedPoint, Pulled;
    PulledIsKicked(b[i], ix, iy, i, kx, ky);
  }

  /** The feet, joints 7 and 8, are not reached at all. */
  lemma {:induction false} KickStages(b: seq<Point>, ix: real, iy: real)
    requires |b| == 9
    ensures KickedUpTo(b, ix, iy, 0) == b && KickedUpTo(b, ix, iy, 7) == Kicked(b, ix, iy)
    ensures Extends(KickedUpTo(b, ix, iy, 0), 0, ix * 2.6, iy * 2.0, KickedUpTo(b, ix, iy, 1))
    ensures Extends(KickedUpTo(b, ix, iy, 1), 1, ix * 1.8, iy * 1.2, KickedUpTo(b, ix, iy, 2))
    ensures Extends(KickedUpTo(b, ix, iy, 2), 2, ix * 1.2, 0.0, KickedUpTo(b, ix, iy, 3))
    ensures Extends(KickedUpTo(b, ix, iy, 3), 3, ix * 0.5, 0.0, KickedUpTo(b, ix, iy, 4))
    ensures Extends(KickedUpTo(b, ix, iy, 4), 4, ix * 0.3, 0.0, KickedUpTo(b, ix, iy, 5))
    ensures Extends(KickedUpTo(b, ix, iy, 5), 5, ix * 0.1, 0.0, KickedUpTo(b, ix, iy, 6))
    ensures Extends(KickedUpTo(b, ix, iy, 6), 6, ix * 0.1, 0.0, KickedUpTo(b, ix, iy, 7))
  {
    hide Extends, Kicked, KickedUpTo;
    KickedBounds(b, ix, iy);
    KickNext(b, ix, iy, 0, ix * 2.6, iy * 2.0);
    KickNext(b, ix, iy, 1, ix * 1.8, iy * 1.2);
    KickNext(b, ix, iy, 2, ix * 1.2, 0.0);
    KickNext(b, ix, iy, 3, ix * 0.5, 0.0);
    KickNext(b, ix, iy, 4, ix * 0.3, 0.0);
    KickNext(b, ix, iy, 5, ix * 0.1, 0.0);
    KickNext(b, ix, iy, 6, ix * 0.1, 0.0);
  }

  lemma {:induction false} PulledIsKicked(p: Point, ix: real, iy: real, i: nat, kx: real, ky: real)
    requires i < 9 && kx == ix * KICK_X[i] && ky == iy * KICK_Y[i]
    ensures Pulled(p, kx, ky) == KickedPoint(p, i, ix, iy)
  {
  }

  lemma {:induction false} KickedBounds(b: seq<Point>, ix: real, iy: real)
    requires |b| == 9
    ensures KickedUpTo(b, ix, iy, 0) == b && KickedUpTo(b, ix, iy, 7) == Kicked(b, ix, iy)
  {
  }

  class VerletRagdoll {
    const points: seq<Joint>
    const facing: real
    var settled: bool
    var impactFrame: nat
    var bloodDripSites: seq<Drip>
    var goreTrail: seq<Spot>

    /** Nine distinct joint records with the masses of the table. */
    ghost predicate Valid() {
      && |points| == 9
      && Distinct(points)
      && forall i | 0 <= i < 9 :: points[i].m == JOINT_MASS[i]
    }

    ghost function Value(): Ragdoll
      reads this, points
    {
      Ragdoll(Values(points), facing, settled, impactFrame, bloodDripSites, goreTrail)
    }

    constructor (xBase: real, yBase: real, facing: real := 1.0)
      ensures Valid() && forall j | j in points :: fresh(j)
      ensures Value() == Standing(xBase, yBase, facing)
    {
      var torso := AssembleTorso(xBase, yBase, facing);
      var js := AssembleLegs(torso, xBase, yBase, facing);
      BodyOfValues(js);
      points := js;
      this.facing := facing;
      settled := false;
      impactFrame := 0;
      bloodDripSites := [];
      goreTrail := [];
    }

    /** Moves back the previous position of joint i. */
    method PullBack(i: nat, kx: real, ky: real)
      requires Valid() && i < 9
      modifies points[i]
      ensures Extends(old(Values(points)), i, kx, ky, Values(points))
    {
      hide Pulled;
      ghost var b := Values(points);
      points[i].Pull(kx, ky);
      assert Values(points) == b[i := Pulled(b[i], kx, ky)];
    }

    method ApplyImpulse(ix: real, iy: real)
      requires Valid()
      modifies points
      ensures Value() == Model.ApplyImpulse(old(Value()), ix, iy)
    {
      hide Values, KickedUpTo, Kicked, Pulled;
      KickStages(Values(points), ix, iy);
      PullBack(0, ix * 2.6, iy * 2.0);
      PullBack(1, ix * 1.8, iy * 1.2);
      PullBack(2, ix * 1.2, 0.0);
      PullBack(3, ix * 0.5, 0.0);
      PullBack(4, ix * 0.3, 0.0);
      PullBack(5, ix * 0.1, 0.0);
      PullBack(6, ix * 0.1, 0.0);
    }

    method TotalKineticEnergy() returns (ke: real)
      requires Valid()
      ensures ke == Sum(Kinetic, Value().points)
    {
      ghost var b := Values(points);
      ke := 0.0;
      for i := 0 to 9
        invariant ke == Sum(Kinetic, b[..i])
      {
        var p := points[i];
        var vx := p.x - p.ox;
        var vy := p.y - p.oy;
        ke := ke + 0.5 * p.m * (vx * vx + vy * vy);
        assert b[..i + 1][..i] == b[..i];
      }
      assert b[..9] == b;
    }

    /** One iteration of the integration loop: joint i moves and its impact is logged. */
    method IntegrateJoint(i: nat, floorY: real, gravity: real, friction: real) returns (moving: bool)
      requires Valid() && i < 9
      modifies points[i], this`bloodDripSites, this`goreTrail
      ensures var w, b := World(floorY, gravity, friction), old(Values(points));
              var p := b[i];
              && Values(points) == b[i := Advance(p, w)]
              && moving == Moving(Advance(p, w))
              && bloodDripSites == old(bloodDripSites) + DripOf(p, w)
              && goreTrail == old(goreTrail) + Spots(DripOf(p, w))
    {
      hide Advance, Moving, VelX, VelY, Hits;
      ghost var b := Values(points);
      var drip;
      moving, drip := points[i].Integrate(floorY, gravity, friction);
      if |drip| > 0 {
        bloodDripSites := bloodDripSites + [drip[0]];
        goreTrail := goreTrail + [Spot(drip[0].x, drip[0].y)];
      }
      assert Values(points) == b[i := Advance(b[i], World(floorY, gravity, friction))];
    }

    /** The integration loop over all joints. */
    method IntegrateAll(floorY: real, gravity: real, friction: real) returns (anyMoving: bool)
      requires Valid()
      modifies points, this`bloodDripSites, this`goreTrail
      ensures var w, b := World(floorY, gravity, friction), old(Values(points));
              && Values(points) == AdvanceAll(b, w)
              && anyMoving == AnyMoving(AdvanceAll(b, w))
              && bloodDripSites == old(bloodDripSites) + Drips(b, w)
              && goreTrail == old(goreTrail) + Spots(Drips(b, w))
    {
      hide Advance, AdvanceAll, AnyMoving, Moving, Drips, DripOf, Spots, Values;
      ghost var w, b := World(floorY, gravity, friction), Values(points);
      anyMoving := false;
      IntegrationStart(b, w);
      for i := 0 to 9
        invariant Values(points) == AdvanceAll(b[..i], w) + b[i..]
        invariant anyMoving == AnyMoving(AdvanceAll(b[..i], w))
        invariant bloodDripSites == old(bloodDripSites) + Drips(b[..i], w)
        invariant goreTrail == old(goreTrail) + Spots(Drips(b[..i], w))
      {
        IntegrationSnoc(b, i, w);
        var moving := IntegrateJoint(i, floorY, gravity, friction);
        anyMoving := anyMoving || moving;
      }
      assert b[..9] == b;
    }

    method ConstrainPair(h: Metric, c: Constraint)
      requires Valid() && Fits(c, 9)
      modifies points
      ensures Values(points) == Project(h, old(Values(points)), c)
    {
      hide FirstMoved, SecondMoved;
      Constrain(h, points[c.first], points[c.second], c.rest);
      assert Values(points) == Project(h, old(Values(points)), c);
    }

    /** The nested constraint loops. */
    method SolveConstraints(h: Metric)
      requires Valid()
      modifies points
      ensures Values(points) == Solve(h, old(Values(points)), PASSES)
    {
      hide Project;
      for pass := 0 to 6
        invariant Values(points) == Solve(h, old(Values(points)), pass)
      {
        ghost var b := Values(points);
        for k := 0 to |CONSTRAINT_PAIRS|
          invariant Values(points) == Pass(h, b, CONSTRAINT_PAIRS[..k])
        {
          ConstrainPair(h, CONSTRAINT_PAIRS[k]);
          assert CONSTRAINT_PAIRS[..k + 1][..k] == CONSTRAINT_PAIRS[..k];
        }
        assert CONSTRAINT_PAIRS[..|CONSTRAINT_PAIRS|] == CONSTRAINT_PAIRS;
      }
    }

    method Step(h: Metric, floorY: real := 24.0, gravity: real := 0.46, friction: real := 0.76)
      requires Valid()
      modifies this, points
      ensures Value() == Model.Step(h, old(Value()), World(floorY, gravity, friction))
    {
      hide Solve, AdvanceAll, AnyMoving, Drips;
      if settled {
        return;
      }
      impactFrame := impactFrame + 1;
      var anyMoving := IntegrateAll(floorY, gravity, friction);
      SolveConstraints(h);
      if impactFrame > 35 && !anyMoving {
        settled := true;
      }
    }

    /** A step with the default floor, gravity and friction. */
    method StepByDefault(h: Metric)
      requires Valid()
      modifies this, points
      ensures Value() == Model.Step(h, old(Value()), World(24.0, 0.46, 0.76))
    {
      Step(h);
    }

    /** A ragdoll with the default facing. */
    static method Facing(xBase: real, yBase: real) returns (r: VerletRagdoll)
      ensures r.Valid() && fresh(r) && r.Value() == Standing(xBase, yBase, 1.0)
      ensures forall j | j in r.points :: fresh(j)
    {
      r := new VerletRagdoll(xBase, yBase);
    }
  }
}
