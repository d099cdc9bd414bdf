/** The integration loop and the whole step: exact balances for the centre of mass, the
    floor as a bound on it, and the energy that contact and settling leave. */
module Integration {
  import opened Algebra
  import opened Model
  import opened Sums
  import opened Solver

  // ---------------------------------------------------------------- coefficients

  lemma DampingRange(m: Mass)
    ensures 0.93 < Damping(m) <= 0.96
  {
    assert m / 32.0 > 0.0;
  }

  lemma RestitutionRange(m: Mass)
    ensures Restitution(m) > 0.15
    ensures m >= 1.0 ==> Restitution(m) <= 0.21
  {
    var inv := 1.0 / m;
    assert inv * m == 1.0;
    if m >= 1.0 {
      NonNegativeProduct(inv, m - 1.0, 1.0 - inv);
    }
  }

  // ---------------------------------------------------------------- whole-step balance

  /** Mass moments that a joint would have after the integration loop. */
  ghost function Coasted(p: Point): real { p.m * (p.x + VelX(p)) }
  ghost function Landed(w: World): Point -> real { (p: Point) => p.m * Min(w.floor, p.y + VelY(p, w)) }

  /** An unsettled step moves the centre of mass as if there were no constraints: the solver's
      sixty projections contribute nothing, and each joint is clipped at the floor. */
  lemma {:induction false} StepBalance(h: Metric, s: Ragdoll, w: World)
    requires |s.points| == 9 && !s.settled
    ensures Sum(MomentX, Step(h, s, w).points) == Sum(Coasted, s.points)
    ensures Sum(MomentY, Step(h, s, w).points) == Sum(Landed(w), s.points)
  {
    hide Solve, Advance, VelX, VelY;
    var advanced := AdvanceAll(s.points, w);
    SolveKeeps(h, advanced, PASSES);
    forall i | 0 <= i < 9
      ensures MomentX(advanced[i]) == Coasted(s.points[i]) && MomentY(advanced[i]) == Landed(w)(s.points[i])
    {
      AdvanceMoments(s.points[i], w);
    }
    SumPointwise(MomentX, advanced, Coasted, s.points);
    SumPointwise(MomentY, advanced, Landed(w), s.points);
  }

  lemma AdvanceMoments(p: Point, w: World)
    ensures Advance(p, w).x == p.x + VelX(p)
    ensures Advance(p, w).y == Min(w.floor, p.y + VelY(p, w))
    ensures Advance(p, w).m == p.m
  {
  }

  ghost function MassOf(p: Point): real { p.m }
  ghost function Carried(p: Point): real { p.m * (p.y + (p.y - p.oy) * Damping(p.m)) }
  ghost function Weight(w: World): Point -> real { (p: Point) => p.m * (w.gravity * (1.0 + (1.0 / p.m) * 0.08)) }

  lemma {:induction false} BodyMass(b: seq<Point>)
    requires IsBody(b)
    ensures Sum(MassOf, b) == 82.5
  {
    SumOfNine(MassOf, b);
  }

  lemma {:induction false} BodyWeight(b: seq<Point>, w: World)
    requires IsBody(b)
    ensures Sum(Weight(w), b) == 83.22 * w.gravity
  {
    SumOfNine(Weight(w), b);
  }

  /** With no joint reaching the floor, gravity adds exactly 83.22 times itself to the
      vertical mass moment. */
  lemma {:induction false} FreeStepBalance(h: Metric, s: Ragdoll, w: World)
    requires IsBody(s.points) && !s.settled
    requires forall i | 0 <= i < 9 :: !Hits(s.points[i], w)
    ensures Sum(MomentY, Step(h, s, w).points) == Sum(Carried, s.points) + 83.22 * w.gravity
  {
    hide Step, Landed, Carried, Weight;
    StepBalance(h, s, w);
    forall i | 0 <= i < 9
      ensures Weight(w)(s.points[i]) == Landed(w)(s.points[i]) - Carried(s.points[i])
    {
      FreeLanding(s.points[i], w);
    }
    SumMinus(Weight(w), s.points, Landed(w), Carried, s.points);
    BodyWeight(s.points, w);
  }

  lemma FreeLanding(p: Point, w: World)
    requires !Hits(p, w)
    ensures Landed(w)(p) == Carried(p) + Weight(w)(p)
  {
    var a, b := p.y + (p.y - p.oy) * Damping(p.m), w.gravity * (1.0 + (1.0 / p.m) * 0.08);
    hide Damping;
    assert p.m * (a + b) == p.m * a + p.m * b;
  }

  /** After any unsettled step, from any positions, the centre of mass is on or above the
      floor, wherever the solver has put single joints. */
  lemma {:induction false} StepCentreAboveFloor(h: Metric, s: Ragdoll, w: World)
    requires IsBody(s.points) && !s.settled
    ensures Sum(MomentY, Step(h, s, w).points) <= 82.5 * w.floor
  {
    hide Step, VelY, Landed;
    StepBalance(h, s, w);
    forall i | 0 <= i < 9
      ensures Landed(w)(s.points[i]) <= w.floor * MassOf(s.points[i])
    {
      LandedBound(s.points[i], w);
    }
    SumBound(Landed(w), s.points, MassOf, s.points, w.floor);
    BodyMass(s.points);
  }

  lemma LandedBound(p: Point, w: World)
    ensures Landed(w)(p) <= w.floor * MassOf(p)
  {
    hide VelY;
    var y := Min(w.floor, p.y + VelY(p, w));
    NonNegativeProduct(p.m, w.floor - y, p.m * w.floor - p.m * y);
  }

  // ---------------------------------------------------------------- energy of contact

  /** Kinetic energy the joint would have after moving, were there no floor. */
  ghost function FreeFlight(w: World): Point -> real {
    (p: Point) => Energy(p.m, VelX(p), VelY(p, w))
  }

  /** Rebound speed never exceeds the vertical speed of a joint that starts above the floor. */
  lemma ReboundBound(p: Point, w: World, c: real)
    requires p.y <= w.floor && Hits(p, w) && (p.y == w.floor || Restitution(p.m) <= 1.0)
    requires c == (w.floor - p.y) * Restitution(p.m)
    ensures 0.0 <= c <= VelY(p, w)
  {
    hide Restitution, VelY;
    RestitutionRange(p.m);
    ReboundWithin(w.floor - p.y, Restitution(p.m), c);
  }

  lemma ReboundWithin(d: real, r: real, c: real)
    requires d >= 0.0 && r >= 0.0 && c == d * r && (d == 0.0 || r <= 1.0)
    ensures 0.0 <= c <= d
  {
    NonNegativeProduct(d, r, c);
    if d > 0.0 {
      NonNegativeProduct(d, 1.0 - r, d - c);
    }
  }

  lemma Shrunk(a: real, k: real)
    requires -1.0 <= k <= 1.0
    ensures Abs(a * k) <= Abs(a)
  {
    NonNegativeProduct(Abs(a), 1.0 - k, Abs(a) - Abs(a) * k);
    NonNegativeProduct(Abs(a), 1.0 + k, Abs(a) + Abs(a) * k);
  }

  lemma SlowerIsCooler(m: Mass, a: real, c: real, a': real, c': real)
    requires Abs(a) <= Abs(a') && Abs(c) <= Abs(c')
    ensures Energy(m, a, c) <= Energy(m, a', c')
  {
    SquareLe(a, Abs(a'));
    SquareLe(c, Abs(c'));
    var e, e' := a * a + c * c, a' * a' + c' * c';
    NonNegativeProduct(m, e' - e, m * (e' - e));
  }

  lemma ContactDissipates(p: Point, w: World)
    requires p.y <= w.floor && -1.0 <= w.friction <= 1.0 && (p.y == w.floor || Restitution(p.m) <= 1.0)
    ensures Kinetic(Advance(p, w)) <= FreeFlight(w)(p)
  {
    hide VelX, VelY, Restitution, Energy;
    if Hits(p, w) {
      var a, c := VelX(p) * w.friction, (w.floor - p.y) * Restitution(p.m);
      ReboundBound(p, w, c);
      Shrunk(VelX(p), w.friction);
      KineticAfterHit(p, w, a, c);
      SlowerIsCooler(p.m, a, c, VelX(p), VelY(p, w));
    } else {
      KineticInFlight(p, w);
    }
  }

  lemma KineticInFlight(p: Point, w: World)
    requires !Hits(p, w)
    ensures Kinetic(Advance(p, w)) == FreeFlight(w)(p)
  {
    hide VelX, VelY, Energy;
    var p' := Advance(p, w);
    assert p'.x - p'.ox == VelX(p) && p'.y - p'.oy == VelY(p, w);
  }

  lemma KineticAfterHit(p: Point, w: World, a: real, c: real)
    requires Hits(p, w) && a == VelX(p) * w.friction && c == (w.floor - p.y) * Restitution(p.m)
    ensures Kinetic(Advance(p, w)) == Energy(p.m, a, c)
  {
    hide VelX, VelY, Restitution, Energy;
    var p' := Advance(p, w);
    assert p'.x - p'.ox == a && p'.y - p'.oy == -c;
    EnergyIsEven(p.m, a, c);
  }

  lemma EnergyIsEven(m: real, a: real, c: real)
    ensures Energy(m, a, -c) == Energy(m, a, c)
  {
    assert (-c) * (-c) == c * c;
  }

  /** Contact never raises a body's kinetic energy above its free-flight value. */
  lemma {:induction false} ContactDissipatesBody(b: seq<Point>, w: World)
    requires IsBody(b) && -1.0 <= w.friction <= 1.0
    requires forall i | 0 <= i < 9 :: b[i].y <= w.floor
    ensures Sum(Kinetic, AdvanceAll(b, w)) <= Sum(FreeFlight(w), b)
  {
    hide Kinetic, FreeFlight, Advance;
    forall i | 0 <= i < 9
      ensures Kinetic(AdvanceAll(b, w)[i]) <= 1.0 * FreeFlight(w)(b[i])
    {
      RestitutionRange(b[i].m);
      ContactDissipates(b[i], w);
    }
    SumBound(Kinetic, AdvanceAll(b, w), FreeFlight(w), b, 1.0);
  }

  /** Without gravity the integration loop leaves at most 0.9216 of the kinetic energy. */
  lemma {:induction false} IntegrationDissipates(b: seq<Point>, w: World)
    requires IsBody(b) && -1.0 <= w.friction <= 1.0 && w.gravity == 0.0
    requires forall i | 0 <= i < 9 :: b[i].y <= w.floor
    ensures Sum(Kinetic, AdvanceAll(b, w)) <= 0.9216 * Sum(Kinetic, b)
  {
    hide Kinetic, FreeFlight, Advance;
    forall i | 0 <= i < 9
      ensures Kinetic(AdvanceAll(b, w)[i]) <= 0.9216 * Kinetic(b[i])
    {
      RestitutionRange(b[i].m);
      ContactDissipates(b[i], w);
      DampedFlight(b[i], w);
    }
    SumBound(Kinetic, AdvanceAll(b, w), Kinetic, b, 0.9216);
  }

  lemma DampedFlight(p: Point, w: World)
    requires w.gravity == 0.0
    ensures FreeFlight(w)(p) <= 0.9216 * Kinetic(p)
  {
    var a, c, d := p.x - p.ox, p.y - p.oy, Damping(p.m);
    DampingRange(p.m);
    hide Damping, Energy;
    assert VelX(p) == a * d && VelY(p, w) == c * d;
    DampedEnergy(p.m, a, c, d);
  }

  lemma DampedEnergy(m: Mass, a: real, c: real, d: real)
    requires 0.0 <= d <= 0.96
    ensures Energy(m, a * d, c * d) <= 0.9216 * Energy(m, a, c)
  {
    var e, dd := 0.5 * m * (a * a + c * c), d * d;
    SquareSign(a, a * a);
    SquareSign(c, c * c);
    NonNegativeProduct(0.5 * m, a * a + c * c, e);
    SquareLe(d, 0.96);
    NonNegativeProduct(e, 0.9216 - dd, 0.9216 * e - e * dd);
    assert (a * d) * (a * d) + (c * d) * (c * d) == (a * a + c * c) * dd;
  }

  // ---------------------------------------------------------------- exactly when contact is safe

  ghost predicate Tame(p: Point, w: World) {
    Kinetic(Advance(p, w)) <= FreeFlight(w)(p)
  }

  /** The joint p, arriving with another velocity. */
  ghost function Launched(p: Point, ox: real, oy: real): Point {
    p.(ox := ox, oy := oy)
  }

  /** Contact is harmless at every velocity if and only if the joint starts on or above the
      floor, the friction factor is within [-1, 1], and a joint starting above it is not so
      light that its restitution exceeds one. A joint below the floor, where the solver can
      leave it (Submerged.StepSubmerges), can gain energy from contact. */
  lemma ContactSafeIff(p: Point, w: World)
    ensures (forall ox, oy :: Tame(Launched(p, ox, oy), w))
            <==> p.y <= w.floor && -1.0 <= w.friction <= 1.0 && (p.y == w.floor || Restitution(p.m) <= 1.0)
  {
    hide Kinetic, FreeFlight, Advance, Restitution;
    if p.y > w.floor {
      SubmergedHeats(p, w);
    } else if p.y < w.floor && Restitution(p.m) > 1.0 {
      BouncyHeats(p, w);
    } else if !(-1.0 <= w.friction <= 1.0) {
      SpeedingHeats(p, w);
    } else {
      forall ox, oy ensures Tame(Launched(p, ox, oy), w) {
        ContactDissipates(Launched(p, ox, oy), w);
      }
    }
  }

  /** Some arrival velocity produces the damped velocity (vx, vy). */
  lemma Aim(p: Point, w: World, vx: real, vy: real) returns (ox: real, oy: real)
    ensures VelX(Launched(p, ox, oy)) == vx && VelY(Launched(p, ox, oy), w) == vy
  {
    var d, g := Damping(p.m), w.gravity * (1.0 + (1.0 / p.m) * 0.08);
    DampingRange(p.m);
    hide Damping;
    ox, oy := p.x - vx / d, p.y - (vy - g) / d;
    assert (vx / d) * d == vx && ((vy - g) / d) * d == vy - g;
  }

  lemma SubmergedHeats(p: Point, w: World)
    requires p.y > w.floor
    ensures exists ox, oy :: !Tame(Launched(p, ox, oy), w)
  {
    var ox, oy := Aim(p, w, 0.0, 0.0);
    var q := Launched(p, ox, oy);
    hide VelX, VelY;
    RestitutionRange(p.m);
    hide Restitution, Advance, Energy;
    var c := (w.floor - p.y) * Restitution(p.m);
    KineticAfterHit(q, w, 0.0, c);
    PositiveProduct(p.y - w.floor, Restitution(p.m), -c);
    EnergySigns(p.m, c);
    assert !Tame(q, w);
  }

  lemma BouncyHeats(p: Point, w: World)
    requires p.y < w.floor && Restitution(p.m) > 1.0
    ensures exists ox, oy :: !Tame(Launched(p, ox, oy), w)
  {
    hide VelX, VelY, Restitution, Advance, Energy;
    var drop := w.floor - p.y;
    var ox, oy := Aim(p, w, 0.0, drop);
    var q, c := Launched(p, ox, oy), drop * Restitution(p.m);
    KineticAfterHit(q, w, 0.0, c);
    PositiveProduct(drop, Restitution(p.m) - 1.0, c - drop);
    EnergyGrows(p.m, drop, c);
    assert !Tame(q, w);
  }

  lemma EnergyGrows(m: Mass, c: real, c': real)
    requires 0.0 <= c < c'
    ensures Energy(m, 0.0, c) < Energy(m, 0.0, c')
  {
    PositiveProduct(c' - c, c' + c, c' * c' - c * c);
    PositiveProduct(m, c' * c' - c * c, m * (c' * c' - c * c));
  }

  lemma EnergySigns(m: Mass, c: real)
    ensures Energy(m, 0.0, 0.0) == 0.0
    ensures c != 0.0 ==> Energy(m, 0.0, c) > 0.0
  {
    SquareSign(c, c * c);
    if c != 0.0 {
      PositiveProduct(m, c * c, m * (c * c));
    }
  }

  ghost predicate Outruns(f: real, v: real, drop: real) {
    (f * f - 1.0) * (v * v) > drop * drop
  }

  lemma SpeedingHeats(p: Point, w: World)
    requires p.y <= w.floor && !(-1.0 <= w.friction <= 1.0)
    ensures exists ox, oy :: !Tame(Launched(p, ox, oy), w)
  {
    var v := FastEnough(w.friction, w.floor - p.y);
    var ox, oy := Aim(p, w, v, w.floor - p.y);
    hide VelX, VelY, Tame, Outruns;
    HotHit(Launched(p, ox, oy), w);
  }

  lemma HotHit(q: Point, w: World)
    requires Hits(q, w) && Outruns(w.friction, VelX(q), VelY(q, w))
    ensures !Tame(q, w)
  {
    hide VelX, VelY, Restitution, Advance, Energy, Outruns, Hits;
    var a, c := VelX(q) * w.friction, (w.floor - q.y) * Restitution(q.m);
    KineticAfterHit(q, w, a, c);
    HotterHit(q.m, VelX(q), w.friction, VelY(q, w), a, c);
  }

  lemma FastEnough(f: real, drop: real) returns (v: real)
    requires !(-1.0 <= f <= 1.0) && drop >= 0.0
    ensures Outruns(f, v, drop)
  {
    var k := f * f - 1.0;
    PositiveProduct(Abs(f) - 1.0, Abs(f) + 1.0, k);
    v := drop / k + drop + 1.0;
    var kv := k * v;
    assert kv == drop + k * (drop + 1.0);
    PositiveProduct(k, drop + 1.0, k * (drop + 1.0));
    assert drop / k >= 0.0;
    PositiveProduct(v, kv - drop, kv * v - drop * v);
    NonNegativeProduct(drop, v - drop, drop * v - drop * drop);
  }

  lemma HotterHit(m: Mass, v: real, f: real, drop: real, a: real, c: real)
    requires a == v * f && Outruns(f, v, drop)
    ensures Energy(m, a, c) > Energy(m, v, drop)
  {
    SquareSign(c, c * c);
    var e, e' := v * v + drop * drop, a * a + c * c;
    assert a * a == (f * f) * (v * v);
    PositiveProduct(m, e' - e, m * (e' - e));
  }

  // ---------------------------------------------------------------- settling

  lemma {:induction false} AdvanceKeepsBody(b: seq<Point>, w: World)
    requires IsBody(b)
    ensures IsBody(AdvanceAll(b, w))
  {
  }

  /** On the step that settles the ragdoll, the energy between integration and constraints is
      at most 0.132, and the momentum it is frozen with at most 3.3 along each axis. */
  lemma {:induction false} SettlingIsQuiet(h: Metric, s: Ragdoll, w: World)
    requires IsBody(s.points) && !s.settled && Step(h, s, w).settled
    ensures Sum(Kinetic, AdvanceAll(s.points, w)) <= 0.132
    ensures Abs(Sum(MomentumX, Step(h, s, w).points)) <= 3.3
    ensures Abs(Sum(MomentumY, Step(h, s, w).points)) <= 3.3
  {
    hide Solve, Advance, Moving, Kinetic, MomentumX, MomentumY;
    var a := AdvanceAll(s.points, w);
    AdvanceKeepsBody(s.points, w);
    SolveKeepsMomentum(h, a, PASSES);
    assert forall i | 0 <= i < 9 :: !Moving(a[i]);
    QuietBody(a);
  }

  lemma {:induction false} QuietBody(a: seq<Point>)
    requires IsBody(a) && forall i | 0 <= i < 9 :: !Moving(a[i])
    ensures Sum(Kinetic, a) <= 0.132
    ensures Abs(Sum(MomentumX, a)) <= 3.3 && Abs(Sum(MomentumY, a)) <= 3.3
  {
    hide Moving, Kinetic, MomentumX, MomentumY;
    BodyMass(a);
    forall i | 0 <= i < 9
      ensures Kinetic(a[i]) <= 0.0016 * MassOf(a[i])
      ensures Abs(MomentumX(a[i])) <= 0.04 * MassOf(a[i]) && Abs(MomentumY(a[i])) <= 0.04 * MassOf(a[i])
    {
      QuietJoint(a[i]);
    }
    SumBound(Kinetic, a, MassOf, a, 0.0016);
    SumAbsBound(MomentumX, MassOf, a, 0.04);
    SumAbsBound(MomentumY, MassOf, a, 0.04);
  }

  lemma QuietJoint(p: Point)
    requires !Moving(p)
    ensures Kinetic(p) <= 0.0016 * p.m
    ensures Abs(MomentumX(p)) <= 0.04 * p.m && Abs(MomentumY(p)) <= 0.04 * p.m
  {
    hide Energy;
    ScaledBound(p.m, p.x - p.ox, 0.04);
    ScaledBound(p.m, p.y - p.oy, 0.04);
    SlowerIsCooler(p.m, p.x - p.ox, p.y - p.oy, 0.04, 0.04);
    EnergyAtThreshold(p.m);
  }

  lemma EnergyAtThreshold(m: Mass)
    ensures Energy(m, 0.04, 0.04) == 0.0016 * m
  {
  }

  lemma ScaledBound(m: Mass, a: real, k: real)
    requires Abs(a) <= k
    ensures Abs(m * a) <= k * m
  {
    NonNegativeProduct(m, k - a, k * m - m * a);
    NonNegativeProduct(m, k + a, k * m + m * a);
  }

  // ---------------------------------------------------------------- energy the solver cannot remove

  lemma MomentumStep(m: real, px: real, py: real, k: real, vx: real, vy: real)
    requires m >= 0.0 && k >= 0.0 && px * px + py * py <= 2.0 * (m * k)
    ensures 2.0 * (px * vx + py * vy) <= m * (vx * vx + vy * vy) + 2.0 * k
  {
    var dot, vv, pp := px * vx + py * vy, vx * vx + vy * vy, px * px + py * py;
    if m == 0.0 {
      SquareSign(px, px * px);
      SquareSign(py, py * py);
      SquaresZero(px, py);
    } else {
      var ex, ey := m * vx - px, m * vy - py;
      SquareSign(ex, ex * ex);
      SquareSign(ey, ey * ey);
      assert ex * ex + ey * ey == m * m * vv - 2.0 * (m * dot) + pp;
      assert m * (m * vv + 2.0 * k - 2.0 * dot) == m * m * vv + 2.0 * (m * k) - 2.0 * (m * dot);
      PositiveFactor(m, m * vv + 2.0 * k - 2.0 * dot);
    }
  }

  lemma PositiveFactor(m: real, a: real)
    requires m > 0.0 && m * a >= 0.0
    ensures a >= 0.0
  {
    if a < 0.0 {
      PositiveProduct(m, -a, -(m * a));
    }
  }

  ghost predicate Carries(m: real, px: real, py: real, k: real) {
    m >= 0.0 && k >= 0.0 && px * px + py * py <= 2.0 * (m * k)
  }

  lemma SquareOfStep(p: real, n: real, v: real, q: real)
    requires q == n * v
    ensures (p + q) * (p + q) == p * p + 2.0 * (n * (p * v)) + n * (n * (v * v))
  {
    assert (p + q) * (p + q) == p * p + 2.0 * (p * q) + q * q;
    assert p * q == n * (p * v);
    assert q * q == n * (n * (v * v));
  }

  lemma CarriesMore(m: real, px: real, py: real, k: real, n: real, vx: real, vy: real, qx: real, qy: real)
    requires Carries(m, px, py, k) && n > 0.0 && qx == n * vx && qy == n * vy
    ensures Carries(m + n, px + qx, py + qy, k + Energy(n, vx, vy))
  {
    var dot, vv := px * vx + py * vy, vx * vx + vy * vy;
    SquareSign(vx, vx * vx);
    SquareSign(vy, vy * vy);
    NonNegativeProduct(n, vv, n * vv);
    MomentumStep(m, px, py, k, vx, vy);
    SquareOfStep(px, n, vx, qx);
    SquareOfStep(py, n, vy, qy);
    CarriesSum(m, px * px + py * py, k, n, dot, vv, (px + qx) * (px + qx) + (py + qy) * (py + qy));
  }

  lemma CarriesSum(m: real, pp: real, k: real, n: real, dot: real, vv: real, pp': real)
    requires n > 0.0 && pp <= 2.0 * (m * k) && 2.0 * dot <= m * vv + 2.0 * k
    requires pp' == pp + 2.0 * (n * dot) + n * (n * vv)
    ensures pp' <= 2.0 * ((m + n) * (k + 0.5 * n * vv))
  {
    NonNegativeProduct(n, m * vv + 2.0 * k - 2.0 * dot, n * (m * vv + 2.0 * k - 2.0 * dot));
    assert (m + n) * (k + 0.5 * n * vv) == m * k + 0.5 * (n * (m * vv)) + n * k + 0.5 * (n * (n * vv));
  }

  lemma {:induction false} MomentumWithinEnergy(b: seq<Point>)
    ensures Carries(Sum(MassOf, b), Sum(MomentumX, b), Sum(MomentumY, b), Sum(Kinetic, b))
    decreases |b|, 1
  {
    if |b| == 0 {
      assert Carries(0.0, 0.0, 0.0, 0.0);
    } else {
      MomentumExtends(b[..|b| - 1], b[|b| - 1]);
    }
  }

  lemma {:induction false} MomentumExtends(b: seq<Point>, p: Point)
    ensures Carries(Sum(MassOf, b) + p.m, Sum(MomentumX, b) + MomentumX(p),
                    Sum(MomentumY, b) + MomentumY(p), Sum(Kinetic, b) + Kinetic(p))
    decreases |b|, 2
  {
    hide Carries, Energy, Sum;
    MomentumWithinEnergy(b);
    CarriesMore(Sum(MassOf, b), Sum(MomentumX, b), Sum(MomentumY, b), Sum(Kinetic, b),
                p.m, p.x - p.ox, p.y - p.oy, MomentumX(p), MomentumY(p));
  }

  /** Whatever the solver does to single joints, it leaves at least the kinetic energy that the
      body's momentum before it requires of a mass of 82.5. */
  lemma {:induction false} SolverLeavesDriftEnergy(h: Metric, b: seq<Point>, n: nat)
    requires IsBody(b)
    ensures var px, py := Sum(MomentumX, b), Sum(MomentumY, b);
            px * px + py * py <= 165.0 * Sum(Kinetic, Solve(h, b, n))
  {
    hide Solve, MomentumX, MomentumY, Kinetic;
    SolveKeeps(h, b, n);
    SolveKeepsMomentum(h, b, n);
    BodyMass(Solve(h, b, n));
    MomentumWithinEnergy(Solve(h, b, n));
  }
}
