/** The value-level model of the ragdoll: what one joint, one distance constraint, one
    simulation step and a whole run compute. Coordinates are exact reals; larger y is
    lower on the screen, so a joint has reached the floor when y >= floor. */
module Model {

  // ---------------------------------------------------------------- joints and tables

  type Mass = m: real | m > 0.0 witness 1.0

  /** A joint: current position, previous position (velocity is their difference), mass. */
  datatype Point = Point(x: real, y: real, ox: real, oy: real, m: Mass)

  const JOINT_MASS: seq<real> := [5.0, 3.5, 9.0, 9.0, 32.0, 8.0, 8.0, 4.0, 4.0]

  datatype Constraint = Constraint(first: nat, second: nat, rest: real)

  const CONSTRAINT_PAIRS: seq<Constraint> :=
    [Constraint(0, 1, 3.5), Constraint(1, 2, 3.5), Constraint(1, 3, 3.5), Constraint(1, 4, 7.5),
     Constraint(4, 5, 5.5), Constraint(4, 6, 5.5), Constraint(5, 7, 5.0), Constraint(6, 8, 5.0),
     Constraint(2, 4, 6.5), Constraint(3, 4, 6.5)]

  predicate Fits(c: Constraint, n: nat) {
    c.first < n && c.second < n && c.first != c.second && c.rest > 0.0
  }

  predicate AllFit(cs: seq<Constraint>, n: nat) {
    forall i | 0 <= i < |cs| :: Fits(cs[i], n)
  }

  /** Nine joints carrying the masses of the table. */
  predicate IsBody(b: seq<Point>) {
    |b| == 9 && forall i | 0 <= i < 9 :: b[i].m == JOINT_MASS[i]
  }

  function Min(a: real, b: real): real {
    if a <= b then a else b
  }

  function Abs(a: real): real {
    if a < 0.0 then -a else a
  }

  // ---------------------------------------------------------------- integration

  /** The arguments of one step. */
  datatype World = World(floor: real, gravity: real, friction: real)

  /** A logged floor impact, and its bare position. */
  datatype Drip = Drip(x: real, y: real, speed: real)
  datatype Spot = Spot(x: real, y: real)

  function Damping(m: Mass): real {
    0.93 + 0.03 * Min(1.0, m / 32.0)
  }

  function Restitution(m: Mass): real {
    0.15 + 0.06 * (1.0 / m)
  }

  function VelX(p: Point): real {
    (p.x - p.ox) * Damping(p.m)
  }

  function VelY(p: Point, w: World): real {
    (p.y - p.oy) * Damping(p.m) + w.gravity * (1.0 + (1.0 / p.m) * 0.08)
  }

  predicate Hits(p: Point, w: World) {
    p.y + VelY(p, w) >= w.floor
  }

  /** Damped Verlet move of one joint, with floor contact. */
  function Advance(p: Point, w: World): Point {
    var x := p.x + VelX(p);
    if Hits(p, w) then
      Point(x, w.floor,
            x - (x - p.x) * w.friction,
            w.floor + (w.floor - p.y) * Restitution(p.m), p.m)
    else
      Point(x, p.y + VelY(p, w), p.x, p.y, p.m)
  }

  function AdvanceAll(b: seq<Point>, w: World): seq<Point> {
    seq(|b|, i requires 0 <= i < |b| => Advance(b[i], w))
  }

  predicate Moving(p: Point) {
    Abs(p.x - p.ox) > 0.04 || Abs(p.y - p.oy) > 0.04
  }

  predicate AnyMoving(b: seq<Point>) {
    exists i | 0 <= i < |b| :: Moving(b[i])
  }

  function DripOf(p: Point, w: World): seq<Drip> {
    if Hits(p, w) && Abs(VelY(p, w)) > 1.0
    then [Drip(p.x + VelX(p), w.floor, Abs(VelY(p, w)))]
    else []
  }

  /** The impacts logged while integrating the joints in order. */
  function Drips(b: seq<Point>, w: World): seq<Drip> {
    if |b| == 0 then [] else Drips(b[..|b| - 1], w) + DripOf(b[|b| - 1], w)
  }

  function SpotOf(d: Drip): Spot {
    Spot(d.x, d.y)
  }

  function Spots(ds: seq<Drip>): seq<Spot> {
    seq(|ds|, i requires 0 <= i < |ds| => SpotOf(ds[i]))
  }

  // ---------------------------------------------------------------- constraint solver

  /** Stands for the library's hypot, which the model takes as an argument. */
  type Metric = (real, real) -> real

  ghost predicate IsHypot(h: Metric) {
    forall a, b :: h(a, b) >= 0.0 && h(a, b) * h(a, b) == a * a + b * b
  }

  /** The distance the solver divides by: 0.001 stands in for zero. */
  function Length(h: Metric, dx: real, dy: real): (d: real)
    ensures d != 0.0
  {
    if h(dx, dy) == 0.0 then 0.001 else h(dx, dy)
  }

  /** The fraction of the separation that a constraint removes. */
  function Excess(h: Metric, p: Point, q: Point, rest: real): real {
    var d := Length(h, q.x - p.x, q.y - p.y);
    (d - rest) / d
  }

  /** The share of a correction taken by a joint whose partner has mass m. */
  function Share(m: Mass, total: Mass): real {
    m / total
  }

  function Correction(d: real, share: real, excess: real): real {
    d * share * excess
  }

  function Nudge(p: Point, dx: real, dy: real): Point {
    p.(x := p.x + dx, y := p.y + dy)
  }

  function FirstMoved(h: Metric, p: Point, q: Point, rest: real): Point {
    var k := Share(q.m, p.m + q.m);
    var e := Excess(h, p, q, rest);
    Nudge(p, Correction(q.x - p.x, k, e), Correction(q.y - p.y, k, e))
  }

  function SecondMoved(h: Metric, p: Point, q: Point, rest: real): Point {
    var k := Share(p.m, p.m + q.m);
    var e := Excess(h, p, q, rest);
    Nudge(q, -Correction(q.x - p.x, k, e), -Correction(q.y - p.y, k, e))
  }

  function Project(h: Metric, b: seq<Point>, c: Constraint): (r: seq<Point>)
    requires Fits(c, |b|)
    ensures |r| == |b|
  {
    var p, q := b[c.first], b[c.second];
    b[c.first := FirstMoved(h, p, q, c.rest)][c.second := SecondMoved(h, p, q, c.rest)]
  }

  /** The constraints of a table applied one after the other. */
  function Pass(h: Metric, b: seq<Point>, cs: seq<Constraint>): (r: seq<Point>)
    requires AllFit(cs, |b|)
    ensures |r| == |b|
  {
    if |cs| == 0 then b
    else Project(h, Pass(h, b, cs[..|cs| - 1]), cs[|cs| - 1])
  }

  const PASSES: nat := 6

  function Solve(h: Metric, b: seq<Point>, n: nat): (r: seq<Point>)
    requires |b| == 9
    ensures |r| == 9
  {
    if n == 0 then b else Pass(h, Solve(h, b, n - 1), CONSTRAINT_PAIRS)
  }

  // ---------------------------------------------------------------- the ragdoll

  datatype Ragdoll = Ragdoll(
    points: seq<Point>, facing: real, settled: bool, frame: nat,
    drips: seq<Drip>, trail: seq<Spot>)

  function Still(x: real, y: real, m: Mass): Point {
    Point(x, y, x, y, m)
  }

  function StandingPoints(xBase: real, yBase: real, f: real): seq<Point> {
    [Still(xBase, yBase - 14.0, 5.0),
     Still(xBase, yBase - 11.0, 3.5),
     Still(xBase + f * 3.0, yBase - 10.0, 9.0),
     Still(xBase - f * 3.0, yBase - 10.0, 9.0),
     Still(xBase, yBase - 4.0, 32.0),
     Still(xBase + f * 2.0, yBase - 1.0, 8.0),
     Still(xBase - f * 2.0, yBase - 1.0, 8.0),
     Still(xBase + f * 2.0, yBase, 4.0),
     Still(xBase - f * 2.0, yBase, 4.0)]
  }

  function Standing(xBase: real, yBase: real, facing: real): Ragdoll {
    Ragdoll(StandingPoints(xBase, yBase, facing), facing, false, 0, [], [])
  }

  /** How strongly an impulse pulls back each joint's previous position. */
  const KICK_X: seq<real> := [2.6, 1.8, 1.2, 0.5, 0.3, 0.1, 0.1, 0.0, 0.0]
  const KICK_Y: seq<real> := [2.0, 1.2, 0.0, 0.0, 0.0, 0.0, 0.0, 0.0, 0.0]

  function KickedPoint(p: Point, i: nat, ix: real, iy: real): Point
    requires i < 9
  {
    p.(ox := p.ox - ix * KICK_X[i], oy := p.oy - iy * KICK_Y[i])
  }

  function Kicked(b: seq<Point>, ix: real, iy: real): seq<Point>
    requires |b| == 9
  {
    seq(9, i requires 0 <= i < 9 => KickedPoint(b[i], i, ix, iy))
  }

  function ApplyImpulse(s: Ragdoll, ix: real, iy: real): Ragdoll
    requires |s.points| == 9
  {
    s.(points := Kicked(s.points, ix, iy))
  }

  function Step(h: Metric, s: Ragdoll, w: World): Ragdoll
    requires |s.points| == 9
  {
    if s.settled then s else
    var advanced := AdvanceAll(s.points, w);
    var ds := Drips(s.points, w);
    Ragdoll(Solve(h, advanced, PASSES), s.facing,
            s.frame + 1 > 35 && !AnyMoving(advanced),
            s.frame + 1, s.drips + ds, s.trail + Spots(ds))
  }

  // ---------------------------------------------------------------- runs

  datatype Event = Tick(world: World) | Impulse(ix: real, iy: real)

  function Apply(h: Metric, s: Ragdoll, e: Event): (r: Ragdoll)
    requires |s.points| == 9
    ensures |r.points| == 9
  {
    match e
    case Tick(w) => Step(h, s, w)
    case Impulse(ix, iy) => ApplyImpulse(s, ix, iy)
  }

  /** An arbitrary interleaving of steps and impulses. */
  function Run(h: Metric, s: Ragdoll, es: seq<Event>): (r: Ragdoll)
    requires |s.points| == 9
    ensures |r.points| == 9
  {
    if |es| == 0 then s else Apply(h, Run(h, s, es[..|es| - 1]), es[|es| - 1])
  }
}
