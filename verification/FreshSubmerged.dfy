/** A fresh ragdoll on its own base line, built with facing 0 so that its joints stand in one
    column: the first step pushes both knees through the floor. In a column every distance is
    a difference of heights, and the solver acts as an affine map on the nine heights. */
module FreshSubmerged {
  import opened Algebra
  import opened Model
  import opened Sums
  import opened FixedPass
  import opened SolverEnergy
  import opened StuckPose
  import opened Submerged
  import opened Symmetry

  const HEIGHTS: seq<real> := [-14.0, -11.0, -10.0, -10.0, -4.0, -1.0, -1.0, 0.0, 0.0]

  /** The standing joints, moved to the heights ys. */
  ghost function Column(ys: seq<real>): (b: seq<Point>)
    requires |ys| == 9
    ensures |b| == 9
  {
    seq(9, i requires 0 <= i < 9 => Point(0.0, ys[i], 0.0, HEIGHTS[i], JOINT_MASS[i]))
  }

  // ---------------------------------------------------------------- one projection

  lemma {:induction false} PairUpright(h: Metric, p: Point, q: Point, rest: real, y: real, y': real)
    requires IsHypot(h) && p.x == q.x && q.y != p.y
    requires (p.m + q.m) * (y - p.y) == q.m * SignedError(p.y, q.y, rest)
    requires (p.m + q.m) * (q.y - y') == p.m * SignedError(p.y, q.y, rest)
    ensures FirstMoved(h, p, q, rest) == p.(y := y) && SecondMoved(h, p, q, rest) == q.(y := y')
  {
    hide SignedError, IsHypot;
    var d, e, err := q.y - p.y, Excess(h, p, q, rest), SignedError(p.y, q.y, rest);
    ExcessUpright(h, p, q, rest);
    ShareOf(q.m, p.m + q.m, d, e, err, y - p.y);
    ShareOf(p.m, p.m + q.m, d, e, err, q.y - y');
  }

  lemma ExcessUpright(h: Metric, p: Point, q: Point, rest: real)
    requires IsHypot(h) && p.x == q.x && q.y != p.y
    ensures (q.y - p.y) * Excess(h, p, q, rest) == SignedError(p.y, q.y, rest)
  {
    MetricDown(h, q.y - p.y);
  }

  /** The sign of each constraint's height difference: the feet are above the knees. */
  ghost function Sign(k: nat): real {
    if k == 6 || k == 7 then -1.0 else 1.0
  }

  /** Constraint k on heights, its second joint being on the Sign(k) side of its first. */
  ghost function Shift(ys: seq<real>, k: nat): (r: seq<real>)
    requires |ys| == 9 && k < 10
    ensures |r| == 9
  {
    var c := CONSTRAINT_PAIRS[k];
    Split(ys, c.first, c.second, Sign(k) * c.rest, JOINT_MASS[c.first], JOINT_MASS[c.second])
  }

  /** Joints i and j, of masses m and n, share the error of their signed difference. */
  ghost function Split(ys: seq<real>, i: nat, j: nat, rest: real, m: real, n: real): (r: seq<real>)
    requires |ys| == 9 && i < 9 && j < 9 && m + n != 0.0
    ensures |r| == 9
  {
    ys[i := First(ys[i], ys[j], rest, m, n)][j := Second(ys[i], ys[j], rest, m, n)]
  }

  ghost function First(a: real, b: real, rest: real, m: real, n: real): real
    requires m + n != 0.0
  {
    a + n / (m + n) * (b - a - rest)
  }

  ghost function Second(a: real, b: real, rest: real, m: real, n: real): real
    requires m + n != 0.0
  {
    b - m / (m + n) * (b - a - rest)
  }

  ghost predicate InOrder(ys: seq<real>, k: nat)
    requires |ys| == 9 && k < 10
  {
    var c := CONSTRAINT_PAIRS[k];
    (ys[c.second] - ys[c.first]) * Sign(k) > 0.0
  }

  lemma {:induction false} ColumnProject(h: Metric, ys: seq<real>, k: nat)
    requires IsHypot(h) && |ys| == 9 && k < 10 && InOrder(ys, k)
    ensures Project(h, Column(ys), CONSTRAINT_PAIRS[k]) == Column(Shift(ys, k))
  {
    hide IsHypot, FirstMoved, SecondMoved;
    var c, zs := CONSTRAINT_PAIRS[k], Shift(ys, k);
    PairUpright(h, Column(ys)[c.first], Column(ys)[c.second], c.rest, zs[c.first], zs[c.second]);
    assert Project(h, Column(ys), c) == Column(zs);
  }

  // ---------------------------------------------------------------- one pass

  ghost function ShiftAll(ys: seq<real>, k: nat): (r: seq<real>)
    requires |ys| == 9 && k <= 10
    ensures |r| == 9
  {
    if k == 0 then ys else Shift(ShiftAll(ys, k - 1), k - 1)
  }

  ghost predicate Orderly(ys: seq<real>)
    requires |ys| == 9
  {
    forall k: nat | k < 10 :: InOrder(ShiftAll(ys, k), k)
  }

  lemma {:induction false} ColumnAt(h: Metric, ys: seq<real>, k: nat)
    requires IsHypot(h) && |ys| == 9 && k <= 10 && Orderly(ys)
    ensures At(h, Column(ys), k) == Column(ShiftAll(ys, k))
  {
    hide IsHypot, Column, Project, Shift, InOrder, At;
    AtEnds(h, Column(ys));
    if k > 0 {
      ColumnAt(h, ys, k - 1);
      AtNext(h, Column(ys), k - 1);
      ColumnProject(h, ShiftAll(ys, k - 1), k - 1);
    }
  }

  // ---------------------------------------------------------------- comparing columns

  ghost predicate Close(ys: seq<real>, zs: seq<real>, r: real)
    requires |ys| == |zs| == 9
  {
    forall i | 0 <= i < 9 :: zs[i] - r <= ys[i] <= zs[i] + r
  }

  /** The two new heights depend on the old ones without stretching any difference. */
  lemma SplitPair(a: real, b: real, c: real, d: real, rest: real, m: real, n: real, r: real)
    requires m > 0.0 && n > 0.0 && c - r <= a <= c + r && d - r <= b <= d + r
    ensures First(c, d, rest, m, n) - r <= First(a, b, rest, m, n) <= First(c, d, rest, m, n) + r
    ensures Second(c, d, rest, m, n) - r <= Second(a, b, rest, m, n) <= Second(c, d, rest, m, n) + r
  {
    var k, l := n / (m + n), m / (m + n);
    assert k + l == 1.0 && k >= 0.0 && l >= 0.0;
    Mixed(k, l, a - c, b - d, r);
    assert (a + k * (b - a - rest)) - (c + k * (d - c - rest)) == l * (a - c) + k * (b - d);
    assert (b - l * (b - a - rest)) - (d - l * (d - c - rest)) == l * (a - c) + k * (b - d);
  }

  lemma Mixed(k: real, l: real, u: real, v: real, r: real)
    requires k >= 0.0 && l >= 0.0 && k + l == 1.0 && -r <= u <= r && -r <= v <= r
    ensures -r <= l * u + k * v <= r
  {
    NonNegativeProduct(l, r - u, l * r - l * u);
    NonNegativeProduct(k, r - v, k * r - k * v);
    NonNegativeProduct(l, r + u, l * r + l * u);
    NonNegativeProduct(k, r + v, k * r + k * v);
    Distribute(r, k, l);
  }

  /** A constraint brings no two columns further apart. */
  lemma {:induction false} ShiftNonExpansive(ys: seq<real>, zs: seq<real>, k: nat, r: real)
    requires |ys| == |zs| == 9 && k < 10 && Close(ys, zs, r)
    ensures Close(Shift(ys, k), Shift(zs, k), r)
  {
    hide First, Second, Sign;
    var c := CONSTRAINT_PAIRS[k];
    SplitPair(ys[c.first], ys[c.second], zs[c.first], zs[c.second], Sign(k) * c.rest,
              JOINT_MASS[c.first], JOINT_MASS[c.second], r);
  }

  /** How far apart, in the right order, constraint k finds its two joints. */
  ghost function Lead(ys: seq<real>, k: nat): real
    requires |ys| == 9 && k < 10
  {
    (ys[CONSTRAINT_PAIRS[k].second] - ys[CONSTRAINT_PAIRS[k].first]) * Sign(k)
  }

  lemma {:induction false} FollowOne(ys: seq<real>, zs: seq<real>, zs': seq<real>, k: nat, r: real, r': real)
    requires |ys| == |zs| == |zs'| == 9 && k < 10
    requires Close(ys, zs, r) && Close(Shift(zs, k), zs', r' - r) && Lead(zs, k) > 2.0 * r
    ensures InOrder(ys, k) && Close(Shift(ys, k), zs', r')
  {
    hide Shift;
    ShiftNonExpansive(ys, zs, k, r);
  }

  // ---------------------------------------------------------------- the first two passes

  /** The heights before each constraint of the first two passes, to three decimals. */
  const FIRST_PASS: seq<seq<real>> :=
    [ [-14.0, -11.0, -10.0, -10.0, -4.0, -1.0, -1.0, 0.0, 0.0],
      [-14.206, -10.706, -10.0, -10.0, -4.0, -1.0, -1.0, 0.0, 0.0],
      [-14.206, -12.718, -9.218, -10.0, -4.0, -1.0, -1.0, 0.0, 0.0],
      [-14.206, -13.281, -9.218, -9.781, -4.0, -1.0, -1.0, 0.0, 0.0],
      [-14.206, -11.676, -9.218, -9.781, -4.176, -1.0, -1.0, 0.0, 0.0],
      [-14.206, -11.676, -9.218, -9.781, -4.64, 0.86, -1.0, 0.0, 0.0],
      [-14.206, -11.676, -9.218, -9.781, -5.012, 0.86, 0.488, 0.0, 0.0],
      [-14.206, -11.676, -9.218, -9.781, -5.012, 2.24, 0.488, -2.76, 0.0],
      [-14.206, -11.676, -9.218, -9.781, -5.012, 2.24, 1.992, -2.76, -3.008],
      [-14.206, -11.676, -11.009, -9.781, -4.509, 2.24, 1.992, -2.76, -3.008],
      [-14.206, -11.676, -11.009, -10.739, -4.239, 2.24, 1.992, -2.76, -3.008]]

  const SECOND_PASS: seq<seq<real>> :=
    [ [-14.206, -11.676, -11.009, -10.739, -4.239, 2.24, 1.992, -2.76, -3.008],
      [-14.605, -11.105, -11.009, -10.739, -4.239, 2.24, 1.992, -2.76, -3.008],
      [-14.605, -13.556, -10.056, -10.739, -4.239, 2.24, 1.992, -2.76, -3.008],
      [-14.605, -14.048, -10.056, -10.548, -4.239, 2.24, 1.992, -2.76, -3.008],
      [-14.605, -11.967, -10.056, -10.548, -4.467, 2.24, 1.992, -2.76, -3.008],
      [-14.605, -11.967, -10.056, -10.548, -4.225, 1.275, 1.992, -2.76, -3.008],
      [-14.605, -11.967, -10.056, -10.548, -4.082, 1.275, 1.418, -2.76, -3.008],
      [-14.605, -11.967, -10.056, -10.548, -4.082, 1.596, 1.418, -3.404, -3.008],
      [-14.605, -11.967, -10.056, -10.548, -4.082, 1.596, 1.609, -3.404, -3.391],
      [-14.605, -11.967, -10.466, -10.548, -3.966, 1.596, 1.609, -3.404, -3.391],
      [-14.605, -11.967, -10.466, -10.484, -3.984, 1.596, 1.609, -3.404, -3.391]]

  /** Constraint k takes row k to row k + 1, up to rounding, with its joints clearly in order. */
  ghost predicate TracksAt(rows: seq<seq<real>>, k: nat)
  {
    && k + 1 < |rows| <= 11 && |rows[k]| == 9 && |rows[k + 1]| == 9
    && Close(Shift(rows[k], k), rows[k + 1], 0.001) && Lead(rows[k], k) > 0.04
  }

  lemma {:induction false} FirstPassRow(k: nat)
    requires k < 10
    ensures TracksAt(FIRST_PASS, k)
  {
  }

  lemma {:induction false} SecondPassRow(k: nat)
    requires k < 10
    ensures TracksAt(SECOND_PASS, k)
  {
  }

  ghost predicate Tracks(rows: seq<seq<real>>) {
    |rows| == 11 && |rows[0]| == 9 && forall k: nat | k < 10 :: TracksAt(rows, k)
  }

  lemma RowsTrack()
    ensures Tracks(FIRST_PASS) && Tracks(SECOND_PASS)
  {
    hide TracksAt;
    forall k: nat | k < 10 ensures TracksAt(FIRST_PASS, k) {
      FirstPassRow(k);
    }
    forall k: nat | k < 10 ensures TracksAt(SECOND_PASS, k) {
      SecondPassRow(k);
    }
  }

  /** A column that starts within r of the first row stays within r + 0.01 of every row. */
  lemma {:induction false} FollowRows(ys: seq<real>, rows: seq<seq<real>>, k: nat, r: real)
    requires |ys| == 9 && Tracks(rows) && k <= 10 && 0.0 <= r <= 0.01 && Close(ys, rows[0], r)
    ensures |rows[k]| == 9 && Close(ShiftAll(ys, k), rows[k], r + 0.001 * k as real)
    ensures forall j: nat | j < k :: InOrder(ShiftAll(ys, j), j)
  {
    if k > 0 {
      hide Shift, InOrder, Close, Lead;
      FollowRows(ys, rows, k - 1, r);
      assert TracksAt(rows, k - 1);
      FollowOne(ShiftAll(ys, k - 1), rows[k - 1], rows[k], k - 1, r + 0.001 * (k - 1) as real, r + 0.001 * k as real);
    }
  }

  // ---------------------------------------------------------------- every later pass

  /** The torso heights of a pass that returns to its start, and the legs hanging from it with
      the feet folded up, the neck near -11.5 when the pass begins. */
  ghost function Cycle(k: nat): (ys: seq<real>)
    requires k <= 10
    ensures |ys| == 9
  {
    var xs := Stage(k);
    [xs[0] - 11.536, xs[1] - 11.536, xs[2] - 11.536, xs[3] - 11.536, xs[4] - 11.536, 1.464, 1.464, -3.536, -3.536]
  }

  lemma {:induction false} CycleStep(k: nat)
    requires k < 10
    ensures Shift(Cycle(k), k) == Cycle(k + 1) && Lead(Cycle(k), k) > 0.92
  {
  }

  lemma {:induction false} FollowCycle(ys: seq<real>, k: nat)
    requires |ys| == 9 && k <= 10 && Close(ys, Cycle(0), 0.46)
    ensures Close(ShiftAll(ys, k), Cycle(k), 0.46)
    ensures forall j: nat | j < k :: InOrder(ShiftAll(ys, j), j)
  {
    if k > 0 {
      hide Shift, InOrder, Close, Lead, Cycle;
      FollowCycle(ys, k - 1);
      CycleStep(k - 1);
      CloseToItself(Cycle(k));
      FollowOne(ShiftAll(ys, k - 1), Cycle(k - 1), Cycle(k), k - 1, 0.46, 0.46);
    }
  }

  lemma {:induction false} CloseToItself(ys: seq<real>)
    requires |ys| == 9
    ensures Close(ys, ys, 0.0)
  {
  }

  // ---------------------------------------------------------------- any number of passes

  ghost function HeightsAfter(n: nat): (ys: seq<real>)
    ensures |ys| == 9
  {
    if n == 0 then HEIGHTS else ShiftAll(HeightsAfter(n - 1), 10)
  }

  lemma TwoPasses()
    ensures Orderly(HEIGHTS) && Orderly(HeightsAfter(1)) && Close(HeightsAfter(2), Cycle(0), 0.46)
  {
    hide Shift, InOrder, Close, Tracks, ShiftAll, Cycle;
    RowsTrack();
    RowEnds();
    FollowRows(HEIGHTS, FIRST_PASS, 10, 0.0);
    FollowRows(HeightsAfter(1), SECOND_PASS, 10, 0.01);
    EndOfTwo(HeightsAfter(2));
  }

  lemma RowEnds()
    ensures |FIRST_PASS| == 11 && |SECOND_PASS| == 11
    ensures FIRST_PASS[0] == HEIGHTS && SECOND_PASS[0] == FIRST_PASS[10] && Close(HEIGHTS, FIRST_PASS[0], 0.0)
  {
  }

  lemma {:induction false} EndOfTwo(ys: seq<real>)
    requires |ys| == 9 && |SECOND_PASS[10]| == 9 && Close(ys, SECOND_PASS[10], 0.02)
    ensures Close(ys, Cycle(0), 0.46)
  {
  }

  lemma {:induction false} HeightsSettle(n: nat)
    ensures Orderly(HeightsAfter(n))
    ensures n >= 2 ==> Close(HeightsAfter(n), Cycle(0), 0.46)
  {
    hide Shift, InOrder, Close, ShiftAll, Cycle;
    TwoPasses();
    if n >= 2 {
      if n > 2 {
        HeightsSettle(n - 1);
        FollowCycle(HeightsAfter(n - 1), 10);
        CycleReturns();
      }
      FollowCycle(HeightsAfter(n), 10);
    }
  }

  lemma CycleReturns()
    ensures Cycle(10) == Cycle(0)
  {
  }

  lemma {:induction false} ColumnSolve(h: Metric, n: nat)
    requires IsHypot(h)
    ensures Solve(h, Column(HEIGHTS), n) == Column(HeightsAfter(n))
  {
    hide IsHypot, Column, ShiftAll, Orderly, Pass, At;
    if n > 0 {
      ColumnSolve(h, n - 1);
      HeightsSettle(n - 1);
      ColumnAt(h, HeightsAfter(n - 1), 10);
      AtEnds(h, Column(HeightsAfter(n - 1)));
    }
  }

  // ---------------------------------------------------------------- the first step

  lemma {:induction false} ColumnIsStanding(w: World)
    requires w.floor == 0.0 && w.gravity == 0.0
    ensures Standing(0.0, 0.0, 0.0).points == Column(HEIGHTS)
    ensures AdvanceAll(Column(HEIGHTS), w) == Column(HEIGHTS)
  {
    hide Advance;
    var b := Column(HEIGHTS);
    assert Standing(0.0, 0.0, 0.0).points == b;
    forall i | 0 <= i < 9 ensures Advance(b[i], w) == b[i] {
      StillJointStays(b[i], w);
    }
  }

  lemma {:induction false} KneesBelow(ys: seq<real>)
    requires |ys| == 9 && Close(ys, Cycle(0), 0.46)
    ensures ys[5] > 1.0 && ys[6] > 1.0
    ensures Kinetic(Column(ys)[5]) > 16.0 && Kinetic(Column(ys)[6]) > 16.0
  {
    assert ys[5] >= 1.004 && ys[6] >= 1.004;
    KineticOfDrop(Column(ys)[5]);
    KineticOfDrop(Column(ys)[6]);
  }

  lemma KineticOfDrop(p: Point)
    requires p.m == 8.0 && p.x == p.ox && p.y - p.oy > 2.0
    ensures Kinetic(p) > 16.0
  {
    var v := p.y - p.oy;
    PositiveProduct(v - 2.0, v + 2.0, v * v - 4.0);
    assert (p.x - p.ox) * (p.x - p.ox) == 0.0;
  }

  lemma AtOrigin(h: Metric, w: World)
    requires IsHypot(h) && w.floor == 0.0 && w.gravity == 0.0
    ensures var b := Step(h, Standing(0.0, 0.0, 0.0), w).points;
            |b| == 9 && b[5].y > 1.0 && b[6].y > 1.0 && Sum(Kinetic, b) > 32.0
  {
    hide IsHypot, Solve, Column, HeightsAfter, Close, Cycle, AdvanceAll, Kinetic, Drips, AnyMoving;
    ColumnIsStanding(w);
    ColumnSolve(h, PASSES);
    HeightsSettle(PASSES);
    var ys := HeightsAfter(PASSES);
    KneesBelow(ys);
    ColumnHeight(ys);
    EnergyOfTwo(Column(ys), 5, 6);
  }

  lemma {:induction false} ColumnHeight(ys: seq<real>)
    requires |ys| == 9
    ensures Column(ys)[5].y == ys[5] && Column(ys)[6].y == ys[6]
  {
  }

  lemma {:induction false} StandingMoved(xBase: real, yBase: real)
    ensures Standing(xBase, yBase, 0.0) == MapRagdoll(Motion(false, xBase, yBase), Standing(0.0, 0.0, 0.0))
  {
    var g := Motion(false, xBase, yBase);
    assert StandingPoints(xBase, yBase, 0.0) == MapBody(g, StandingPoints(0.0, 0.0, 0.0));
  }

  lemma {:induction false} EnergyMoved(dx: real, dy: real, b: seq<Point>)
    ensures Sum(Kinetic, MapBody(Motion(false, dx, dy), b)) == Sum(Kinetic, b)
  {
    hide Energy;
    SumPointwise(Kinetic, MapBody(Motion(false, dx, dy), b), Kinetic, b);
  }

  /** A fresh ragdoll stands still on its own base line, no joint below it. One step there, with
      no gravity at all and any friction, puts both knees more than 1.0 below the floor and
      creates kinetic energy out of none. */
  lemma {:induction false} FreshSubmerges(h: Metric, xBase: real, yBase: real, w: World)
    requires IsHypot(h) && w.floor == yBase && w.gravity == 0.0
    ensures var s := Standing(xBase, yBase, 0.0);
            var b := Step(h, s, w).points;
            && (forall p | p in s.points :: p.y <= w.floor)
            && |b| == 9 && b[5].y > w.floor + 1.0 && b[6].y > w.floor + 1.0
            && Sum(Kinetic, s.points) == 0.0 && Sum(Kinetic, b) > 32.0
  {
    hide IsHypot, Step, Kinetic, Sum, Standing, MapPoint;
    var g, w0, s0 := Motion(false, xBase, yBase), w.(floor := 0.0), Standing(0.0, 0.0, 0.0);
    AtOrigin(h, w0);
    StandingMoved(xBase, yBase);
    StandingIsStill(xBase, yBase);
    StandingIsStill(0.0, 0.0);
    StepCommutes(h, g, s0, w0);
    assert MapWorld(g, w0) == w;
    EnergyMoved(xBase, yBase, Step(h, s0, w0).points);
    HeightMoved(g, Step(h, s0, w0).points[5]);
    HeightMoved(g, Step(h, s0, w0).points[6]);
  }

  lemma HeightMoved(g: Motion, p: Point)
    ensures MapPoint(g, p).y == p.y + g.dy
  {
  }

  lemma {:induction false} StandingIsStill(xBase: real, yBase: real)
    ensures var s := Standing(xBase, yBase, 0.0);
            |s.points| == 9 && (forall p | p in s.points :: p.y <= yBase) && Sum(Kinetic, s.points) == 0.0
  {
    hide Kinetic;
    EnergyOfBody(Standing(xBase, yBase, 0.0).points);
  }
}
