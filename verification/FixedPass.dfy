/** When does a pass of the solver return a body to where it was? Exactly when every
    constraint is satisfied, unless the torso has been folded onto a line. */
module FixedPass {
  import opened Model
  import opened Solver

  ghost predicate Collinear(p: Point, q: Point, r: Point) {
    (q.x - p.x) * (r.y - p.y) == (q.y - p.y) * (r.x - p.x)
  }

  // ---------------------------------------------------------------- one projection

  lemma ZeroFactor(m: real, a: real)
    requires m != 0.0 && m * a == 0.0
    ensures a == 0.0
  {
  }

  /** Mass balance: if one joint of a pair stays, so does the other. */
  lemma {:induction false} HalfIdle(h: Metric, b: seq<Point>, c: Constraint)
    requires Fits(c, |b|)
    requires Project(h, b, c)[c.first] == b[c.first] || Project(h, b, c)[c.second] == b[c.second]
    ensures Project(h, b, c) == b
  {
    hide FirstMoved, SecondMoved, Excess;
    var p, q := b[c.first], b[c.second];
    var p', q' := FirstMoved(h, p, q, c.rest), SecondMoved(h, p, q, c.rest);
    PairFacts(h, p, q, c.rest);
    PairKeepsPast(h, p, q, c.rest);
    if p' == p {
      ZeroFactor(q.m, q'.x - q.x);
      ZeroFactor(q.m, q'.y - q.y);
    } else {
      ZeroFactor(p.m, p'.x - p.x);
      ZeroFactor(p.m, p'.y - p.y);
    }
  }

  // ---------------------------------------------------------------- inside one pass

  /** The body after the first k constraints of a pass. */
  ghost function At(h: Metric, b: seq<Point>, k: nat): (r: seq<Point>)
    requires |b| == 9 && k <= 10
    ensures |r| == 9
  {
    Pass(h, b, CONSTRAINT_PAIRS[..k])
  }

  lemma {:induction false} AtEnds(h: Metric, b: seq<Point>)
    requires |b| == 9
    ensures At(h, b, 0) == b && At(h, b, 10) == Pass(h, b, CONSTRAINT_PAIRS)
  {
    hide Project;
    assert CONSTRAINT_PAIRS[..10] == CONSTRAINT_PAIRS;
    assert CONSTRAINT_PAIRS[..0] == [];
  }

  lemma {:induction false} AtNext(h: Metric, b: seq<Point>, k: nat)
    requires |b| == 9 && k < 10
    ensures At(h, b, k + 1) == Project(h, At(h, b, k), CONSTRAINT_PAIRS[k])
  {
    hide Project;
    assert CONSTRAINT_PAIRS[..k + 1][..k] == CONSTRAINT_PAIRS[..k];
  }

  /** No constraint numbered i up to but not including k touches joint j. */
  ghost predicate Free(j: nat, i: nat, k: nat)
    requires k <= 10
  {
    forall t: nat | i <= t < k :: !Touches(CONSTRAINT_PAIRS[t], j)
  }

  lemma {:induction false} FreeStays(h: Metric, b: seq<Point>, j: nat, i: nat, k: nat)
    requires |b| == 9 && j < 9 && i <= k <= 10 && Free(j, i, k)
    ensures At(h, b, k)[j] == At(h, b, i)[j]
  {
    if i < k {
      hide FirstMoved, SecondMoved, At;
      FreeStays(h, b, j, i, k - 1);
      AtNext(h, b, k - 1);
      assert !Touches(CONSTRAINT_PAIRS[k - 1], j);
    }
  }

  /** A constraint that leaves one of its joints in place is idle. */
  lemma {:induction false} EndIdle(h: Metric, b: seq<Point>, j: nat, k: nat)
    requires |b| == 9 && k < 10 && Touches(CONSTRAINT_PAIRS[k], j)
    requires At(h, b, k + 1)[j] == At(h, b, k)[j]
    ensures At(h, b, k + 1) == At(h, b, k)
  {
    hide Project, At;
    AtNext(h, b, k);
    HalfIdle(h, At(h, b, k), CONSTRAINT_PAIRS[k]);
  }

  // ---------------------------------------------------------------- head, feet and knees

  /** The constraints that touch a joint exactly once in a pass, and then those that touch a
      joint otherwise touched only by these, are idle in a pass that returns to its start. */
  lemma {:induction false} LimbsIdle(h: Metric, b: seq<Point>)
    requires |b| == 9 && At(h, b, 10) == b && At(h, b, 0) == b
    ensures At(h, b, 1) == b
    ensures At(h, b, 5) == At(h, b, 4) && At(h, b, 6) == At(h, b, 4)
    ensures At(h, b, 7) == At(h, b, 4) && At(h, b, 8) == At(h, b, 4)
  {
    hide At;
    OnceTouched(h, b, 0, 0);
    OnceTouched(h, b, 7, 6);
    OnceTouched(h, b, 8, 7);
    FreeStays(h, b, 5, 0, 4);
    FreeStays(h, b, 5, 5, 6);
    FreeStays(h, b, 5, 7, 10);
    EndIdle(h, b, 5, 4);
    FreeStays(h, b, 6, 0, 5);
    FreeStays(h, b, 6, 6, 7);
    FreeStays(h, b, 6, 8, 10);
    EndIdle(h, b, 6, 5);
  }

  lemma {:induction false} OnceTouched(h: Metric, b: seq<Point>, j: nat, k: nat)
    requires |b| == 9 && At(h, b, 10) == b && At(h, b, 0) == b
    requires j < 9 && k < 10 && Touches(CONSTRAINT_PAIRS[k], j) && Free(j, 0, k) && Free(j, k + 1, 10)
    ensures At(h, b, k + 1) == At(h, b, k)
  {
    hide At, Free;
    FreeStays(h, b, j, 0, k);
    FreeStays(h, b, j, k + 1, 10);
    EndIdle(h, b, j, k);
  }

  // ---------------------------------------------------------------- shoulders

  ghost function Cross(ax: real, ay: real, cx: real, cy: real): real {
    ax * cy - ay * cx
  }

  lemma CrossScaled(ax: real, ay: real, cx: real, cy: real, t: real, fx: real, fy: real, s: real)
    requires Cross(ax, ay, cx, cy) == 0.0 && t != 0.0 && t * fx == s * ax && t * fy == s * ay
    ensures Cross(fx, fy, cx, cy) == 0.0
  {
    assert t * Cross(fx, fy, cx, cy) == (t * fx) * cy - (t * fy) * cx;
    assert (s * ax) * cy - (s * ay) * cx == s * Cross(ax, ay, cx, cy);
    ZeroFactor(t, Cross(fx, fy, cx, cy));
  }

  lemma CrossTransitive(dx: real, dy: real, ex: real, ey: real, ux: real, uy: real)
    requires Cross(dx, dy, ux, uy) == 0.0 && Cross(ex, ey, ux, uy) == 0.0 && (ux != 0.0 || uy != 0.0)
    ensures Cross(dx, dy, ex, ey) == 0.0
  {
    var c := Cross(dx, dy, ex, ey);
    if ux != 0.0 {
      assert ux * c == dx * (ey * ux) - (dy * ux) * ex;
      assert dx * (ex * uy) == (dx * uy) * ex;
      ZeroFactor(ux, c);
    } else {
      assert uy * c == (dx * uy) * ey - dy * (ex * uy);
      assert (dy * ux) * ey == dy * (ey * ux);
      ZeroFactor(uy, c);
    }
  }

  lemma CrossSum(fx: real, fy: real, dx: real, dy: real, ux: real, uy: real)
    requires Cross(dx, dy, ux, uy) == 0.0 && Cross(fx - dx - ux, fy - dy - uy, ux, uy) == 0.0
    ensures Cross(fx, fy, ux, uy) == 0.0
  {
  }

  /** The spine, in one coordinate: the hips' distance from the neck's new place is a fixed
      multiple of their distance from its old one. */
  lemma SpineSpan(m: real, n: real, neck: real, hips: real, neck': real, hips': real, k: real)
    requires m * (neck' - neck) + n * (hips' - hips) == 0.0 && hips' - neck' == (hips - neck) * k
    ensures (m + n) * (hips - neck') == (m + n * k) * (hips - neck)
  {
    var a, e := hips - neck, hips - neck';
    assert hips' - hips == a * k - e && neck' - neck == a - e;
    assert m * (a - e) + n * (a * k - e) == m * a + n * (a * k) - (m + n) * e;
    assert (m + n * k) * a == m * a + n * (a * k);
  }

  /** A shoulder q that one constraint moves along the line from the neck p and another moves
      back along the line to the hips r' lies in line with p and the old hips r. */
  lemma ShoulderInLine(p: Point, q: Point, q': Point, neck: Point, r: Point, r': Point, k: real, s: real, t: real)
    requires k != 0.0 && t != 0.0 && (q'.x != q.x || q'.y != q.y)
    requires Cross(q.x - p.x, q.y - p.y, q'.x - q.x, q'.y - q.y) == 0.0
    requires Cross(r'.x - q'.x, r'.y - q'.y, q'.x - q.x, q'.y - q.y) == 0.0
    requires r'.x - p.x == (r.x - neck.x) * k && r'.y - p.y == (r.y - neck.y) * k
    requires t * (r.x - p.x) == s * (r.x - neck.x) && t * (r.y - p.y) == s * (r.y - neck.y)
    ensures Collinear(p, q, r)
  {
    hide Cross;
    var ux, uy := q'.x - q.x, q'.y - q.y;
    var dx, dy, ax, ay := q.x - p.x, q.y - p.y, r.x - neck.x, r.y - neck.y;
    CrossSum(r'.x - p.x, r'.y - p.y, dx, dy, ux, uy);
    CrossScaled(r'.x - p.x, r'.y - p.y, ux, uy, k, ax, ay, 1.0);
    CrossScaled(ax, ay, ux, uy, t, r.x - p.x, r.y - p.y, s);
    CrossTransitive(dx, dy, r.x - p.x, r.y - p.y, ux, uy);
    CrossMeaning(p, q, r);
  }

  lemma CrossMeaning(p: Point, q: Point, r: Point)
    ensures Collinear(p, q, r) <==> Cross(q.x - p.x, q.y - p.y, r.x - p.x, r.y - p.y) == 0.0
  {
  }

  /** Both joints of a pair move along their separation. */
  lemma PairAlong(h: Metric, p: Point, q: Point, rest: real)
    ensures var p', q' := FirstMoved(h, p, q, rest), SecondMoved(h, p, q, rest);
            && Cross(q.x - p.x, q.y - p.y, p'.x - p.x, p'.y - p.y) == 0.0
            && Cross(q.x - p.x, q.y - p.y, q'.x - q.x, q'.y - q.y) == 0.0
  {
    hide FirstMoved, SecondMoved, Excess;
    var p', q' := FirstMoved(h, p, q, rest), SecondMoved(h, p, q, rest);
    PairFacts(h, p, q, rest);
    AlongBoth(p.m, q.m, q.x - p.x, q.y - p.y, p'.x - p.x, p'.y - p.y, q'.x - q.x, q'.y - q.y);
  }

  lemma AlongBoth(m: Mass, n: Mass, dx: real, dy: real, ux: real, uy: real, vx: real, vy: real)
    requires m * ux + n * vx == 0.0 && m * uy + n * vy == 0.0 && dx * uy == dy * ux
    ensures Cross(dx, dy, ux, uy) == 0.0 && Cross(dx, dy, vx, vy) == 0.0
  {
    assert n * Cross(dx, dy, vx, vy) == dx * (n * vy) - dy * (n * vx);
    assert dx * (m * uy) == dy * (m * ux);
    ZeroFactor(n, Cross(dx, dy, vx, vy));
  }

  /** What constraint 3, neck to hips, does in a pass whose neck ends where it began. */
  lemma {:induction false} SpineFacts(h: Metric, b: seq<Point>) returns (k: real, s: real, t: real)
    requires |b| == 9 && At(h, b, 4)[1] == b[1] && At(h, b, 3)[4] == b[4]
    ensures var p, neck, r, r' := b[1], At(h, b, 3)[1], b[4], At(h, b, 4)[4];
            && k != 0.0 && t != 0.0
            && r'.x - p.x == (r.x - neck.x) * k && r'.y - p.y == (r.y - neck.y) * k
            && t * (r.x - p.x) == s * (r.x - neck.x) && t * (r.y - p.y) == s * (r.y - neck.y)
  {
    hide At, FirstMoved, SecondMoved, Excess, Length;
    var neck, r, c := At(h, b, 3)[1], At(h, b, 3)[4], CONSTRAINT_PAIRS[3];
    AtNext(h, b, 3);
    PairFacts(h, neck, r, c.rest);
    ExcessMeaning(h, neck, r, c.rest);
    var neck', r' := At(h, b, 4)[1], At(h, b, 4)[4];
    k := 1.0 - Excess(h, neck, r, c.rest);
    SpineSpan(neck.m, r.m, neck.x, r.x, neck'.x, r'.x, k);
    SpineSpan(neck.m, r.m, neck.y, r.y, neck'.y, r'.y, k);
    s, t := neck.m + r.m * k, neck.m + r.m;
  }

  /** The shoulder j, tied to the neck by constraint i and to the hips by constraint l, is not
      moved by constraint i in a pass that puts neck and shoulder back in place, provided it is
      not in line with them. */
  lemma {:induction false} ShoulderStays(h: Metric, b: seq<Point>, j: nat, i: nat, l: nat)
    requires |b| == 9 && (j == 2 || j == 3) && i < l < 10
    requires CONSTRAINT_PAIRS[i] == Constraint(1, j, 3.5) && CONSTRAINT_PAIRS[l] == Constraint(j, 4, 6.5)
    requires At(h, b, i)[1] == b[1] && At(h, b, i)[j] == b[j] && At(h, b, l)[j] == At(h, b, i + 1)[j]
    requires At(h, b, l)[4] == At(h, b, 4)[4] && At(h, b, l + 1)[j] == b[j]
    requires At(h, b, 4)[1] == b[1] && At(h, b, 3)[4] == b[4]
    requires !Collinear(b[1], b[j], b[4])
    ensures At(h, b, i + 1) == At(h, b, i) && At(h, b, l + 1) == At(h, b, l)
  {
    hide At, Collinear;
    if At(h, b, i + 1)[j] != b[j] {
      MovedShoulderInLine(h, b, j, i, l);
    }
    EndIdle(h, b, j, i);
    EndIdle(h, b, j, l);
  }

  lemma {:induction false} MovedShoulderInLine(h: Metric, b: seq<Point>, j: nat, i: nat, l: nat)
    requires |b| == 9 && (j == 2 || j == 3) && i < l < 10
    requires CONSTRAINT_PAIRS[i] == Constraint(1, j, 3.5) && CONSTRAINT_PAIRS[l] == Constraint(j, 4, 6.5)
    requires At(h, b, i)[1] == b[1] && At(h, b, i)[j] == b[j] && At(h, b, l)[j] == At(h, b, i + 1)[j]
    requires At(h, b, l)[4] == At(h, b, 4)[4] && At(h, b, l + 1)[j] == b[j]
    requires At(h, b, 4)[1] == b[1] && At(h, b, 3)[4] == b[4]
    requires At(h, b, i + 1)[j] != b[j]
    ensures Collinear(b[1], b[j], b[4])
  {
    hide At, FirstMoved, SecondMoved, Collinear, Cross;
    var q, q', r' := b[j], At(h, b, i + 1)[j], At(h, b, 4)[4];
    AtPair(h, b, i);
    AtPair(h, b, l);
    PairAlong(h, b[1], q, 3.5);
    PairKeepsPast(h, b[1], q, 3.5);
    PairAlong(h, q', r', 6.5);
    Reversed(r'.x - q'.x, r'.y - q'.y, q.x - q'.x, q.y - q'.y, q'.x - q.x, q'.y - q.y);
    var k, s, t := SpineFacts(h, b);
    ShoulderInLine(b[1], q, q', At(h, b, 3)[1], b[4], r', k, s, t);
  }

  /** What constraint k does to its two joints. */
  lemma {:induction false} AtPair(h: Metric, b: seq<Point>, k: nat)
    requires |b| == 9 && k < 10
    ensures var c := CONSTRAINT_PAIRS[k];
            var p, q := At(h, b, k)[c.first], At(h, b, k)[c.second];
            && At(h, b, k + 1)[c.first] == FirstMoved(h, p, q, c.rest)
            && At(h, b, k + 1)[c.second] == SecondMoved(h, p, q, c.rest)
  {
    hide At, FirstMoved, SecondMoved;
    AtNext(h, b, k);
  }

  lemma Reversed(ax: real, ay: real, cx: real, cy: real, cx': real, cy': real)
    requires Cross(ax, ay, cx, cy) == 0.0 && cx' == -cx && cy' == -cy
    ensures Cross(ax, ay, cx', cy') == 0.0
  {
  }

  // ---------------------------------------------------------------- the theorem

  /** In a pass that returns to its start, with neither shoulder in line with neck and hips,
      every single projection is idle. */
  lemma {:induction false} FixedPassIsIdle(h: Metric, b: seq<Point>, k: nat)
    requires |b| == 9 && k <= 10 && At(h, b, 0) == b && At(h, b, 10) == b
    requires !Collinear(b[1], b[2], b[4]) && !Collinear(b[1], b[3], b[4])
    ensures At(h, b, k) == b
  {
    hide At, Collinear;
    LimbsIdle(h, b);
    FreeStays(h, b, 1, 4, 10);
    FreeStays(h, b, 4, 0, 3);
    RightShoulderIdle(h, b);
    LeftShoulderIdle(h, b);
  }

  lemma {:induction false} RightShoulderIdle(h: Metric, b: seq<Point>)
    requires |b| == 9 && At(h, b, 10) == b && At(h, b, 1) == b && At(h, b, 8) == At(h, b, 4)
    requires At(h, b, 4)[1] == b[1] && At(h, b, 3)[4] == b[4] && !Collinear(b[1], b[2], b[4])
    ensures At(h, b, 2) == b && At(h, b, 9) == At(h, b, 4)
  {
    hide At, Collinear;
    FreeStays(h, b, 2, 2, 8);
    FreeStays(h, b, 2, 9, 10);
    ShoulderStays(h, b, 2, 1, 8);
  }

  lemma {:induction false} LeftShoulderIdle(h: Metric, b: seq<Point>)
    requires |b| == 9 && At(h, b, 10) == b && At(h, b, 2) == b && At(h, b, 9) == At(h, b, 4)
    requires At(h, b, 4)[1] == b[1] && At(h, b, 3)[4] == b[4] && !Collinear(b[1], b[3], b[4])
    ensures At(h, b, 3) == b && At(h, b, 10) == At(h, b, 9)
  {
    hide At, Collinear;
    FreeStays(h, b, 3, 3, 9);
    ShoulderStays(h, b, 3, 2, 9);
  }

  /** A pass returns a body whose shoulders are not in line with neck and hips to where it was
      if and only if every constraint is satisfied. */
  lemma {:induction false} FixedPassIff(h: Metric, b: seq<Point>)
    requires IsHypot(h) && |b| == 9
    requires !Collinear(b[1], b[2], b[4]) && !Collinear(b[1], b[3], b[4])
    ensures Pass(h, b, CONSTRAINT_PAIRS) == b <==> AllSatisfied(b, CONSTRAINT_PAIRS)
  {
    hide Project, IsHypot, Collinear, AllSatisfied;
    PassIdleIff(h, b, CONSTRAINT_PAIRS);
    assert CONSTRAINT_PAIRS[..10] == CONSTRAINT_PAIRS;
    if Pass(h, b, CONSTRAINT_PAIRS) == b {
      AtEnds(h, b);
      forall k: nat | k <= 10 ensures Pass(h, b, CONSTRAINT_PAIRS[..k]) == b {
        FixedPassIsIdle(h, b, k);
      }
    }
  }

  /** A satisfied body, in line or not, is left alone by any number of passes. */
  lemma {:induction false} SatisfiedStays(h: Metric, b: seq<Point>, n: nat)
    requires IsHypot(h) && |b| == 9 && AllSatisfied(b, CONSTRAINT_PAIRS)
    ensures Solve(h, b, n) == b
  {
    hide Project, IsHypot, AllSatisfied;
    if n > 0 {
      SatisfiedStays(h, b, n - 1);
      PassIdleIff(h, b, CONSTRAINT_PAIRS);
      assert CONSTRAINT_PAIRS[..10] == CONSTRAINT_PAIRS;
    }
  }
}
