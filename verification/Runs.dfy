/** What holds over every interleaving of steps and impulses. */
module Runs {
  import opened Model
  import opened Sums
  import opened Solver
  import opened Integration

  // ---------------------------------------------------------------- shape of runs

  lemma {:induction false} RunConcat(h: Metric, s: Ragdoll, es: seq<Event>, fs: seq<Event>)
    requires |s.points| == 9
    ensures Run(h, s, es + fs) == Run(h, Run(h, s, es), fs)
  {
    hide Apply;
    if |fs| == 0 {
      assert es + fs == es;
    } else {
      var n := |fs| - 1;
      assert (es + fs)[..|es| + n] == es + fs[..n];
      RunConcat(h, s, es, fs[..n]);
    }
  }

  lemma {:induction false} ApplyKeepsBody(h: Metric, s: Ragdoll, e: Event)
    requires IsBody(s.points)
    ensures IsBody(Apply(h, s, e).points)
  {
    if e.Tick? && !s.settled {
      hide Solve, Advance;
      AdvanceKeepsBody(s.points, e.world);
      SolveKeeps(h, AdvanceAll(s.points, e.world), PASSES);
    }
  }

  lemma {:induction false} RunKeepsBody(h: Metric, s: Ragdoll, es: seq<Event>)
    requires IsBody(s.points)
    ensures IsBody(Run(h, s, es).points)
  {
    if |es| > 0 {
      hide Apply;
      RunKeepsBody(h, s, es[..|es| - 1]);
      ApplyKeepsBody(h, Run(h, s, es[..|es| - 1]), es[|es| - 1]);
    }
  }

  // ---------------------------------------------------------------- impulses and the freeze

  ghost function TotalX(es: seq<Event>): real {
    if |es| == 0 then 0.0
    else TotalX(es[..|es| - 1]) + (if es[|es| - 1].Impulse? then es[|es| - 1].ix else 0.0)
  }

  ghost function TotalY(es: seq<Event>): real {
    if |es| == 0 then 0.0
    else TotalY(es[..|es| - 1]) + (if es[|es| - 1].Impulse? then es[|es| - 1].iy else 0.0)
  }

  lemma {:induction false} ImpulsesAdd(s: Ragdoll, ax: real, ay: real, cx: real, cy: real)
    requires |s.points| == 9
    ensures ApplyImpulse(ApplyImpulse(s, ax, ay), cx, cy) == ApplyImpulse(s, ax + cx, ay + cy)
  {
    var l, r := Kicked(Kicked(s.points, ax, ay), cx, cy), Kicked(s.points, ax + cx, ay + cy);
    forall i | 0 <= i < 9 ensures l[i] == r[i] {
      assert l[i] == KickedPoint(KickedPoint(s.points[i], i, ax, ay), i, cx, cy);
      Distribute(KICK_X[i], ax, cx);
      Distribute(KICK_Y[i], ay, cy);
    }
    assert l == r;
  }

  lemma {:induction false} NoImpulse(s: Ragdoll)
    requires |s.points| == 9
    ensures ApplyImpulse(s, 0.0, 0.0) == s
  {
    assert Kicked(s.points, 0.0, 0.0) == s.points;
  }

  /** A run of impulses alone, or any run at all once the ragdoll has settled, amounts to one
      impulse with the summed components: steps have become no-ops for good. */
  lemma {:induction false} RunIsOneImpulse(h: Metric, s: Ragdoll, es: seq<Event>)
    requires |s.points| == 9
    requires s.settled || forall i | 0 <= i < |es| :: es[i].Impulse?
    ensures Run(h, s, es) == ApplyImpulse(s, TotalX(es), TotalY(es))
  {
    if |es| == 0 {
      NoImpulse(s);
    } else {
      var n := |es| - 1;
      RunIsOneImpulse(h, s, es[..n]);
      hide Kicked;
      if es[n].Impulse? {
        ImpulsesAdd(s, TotalX(es[..n]), TotalY(es[..n]), es[n].ix, es[n].iy);
      }
    }
  }

  /** Same places, masses, flag, frame and logs: everything but the previous positions. */
  ghost predicate SameScene(s: Ragdoll, r: Ragdoll) {
    && |s.points| == |r.points|
    && (forall i | 0 <= i < |s.points| ::
          s.points[i].x == r.points[i].x && s.points[i].y == r.points[i].y && s.points[i].m == r.points[i].m)
    && r == s.(points := r.points)
  }

  /** Settling is a permanent freeze. */
  lemma {:induction false} SettledForever(h: Metric, s: Ragdoll, es: seq<Event>)
    requires |s.points| == 9 && s.settled
    ensures SameScene(s, Run(h, s, es))
  {
    RunIsOneImpulse(h, s, es);
  }

  lemma {:induction false} KickMomentum(b: seq<Point>, ix: real, iy: real)
    requires IsBody(b)
    ensures Sum(MomentumX, Kicked(b, ix, iy)) == Sum(MomentumX, b) + 45.8 * ix
    ensures Sum(MomentumY, Kicked(b, ix, iy)) == Sum(MomentumY, b) + 14.2 * iy
  {
    SumOfNine(MomentumX, b);
    SumOfNine(MomentumX, Kicked(b, ix, iy));
    SumOfNine(MomentumY, b);
    SumOfNine(MomentumY, Kicked(b, ix, iy));
  }

  /** Any sequence of impulses moves nothing and adds 45.8 and 14.2 times the summed
      components to the momentum. */
  lemma {:induction false} ImpulsesAddMomentum(h: Metric, s: Ragdoll, es: seq<Event>)
    requires IsBody(s.points) && forall i | 0 <= i < |es| :: es[i].Impulse?
    ensures SameScene(s, Run(h, s, es))
    ensures Sum(MomentumX, Run(h, s, es).points) == Sum(MomentumX, s.points) + 45.8 * TotalX(es)
    ensures Sum(MomentumY, Run(h, s, es).points) == Sum(MomentumY, s.points) + 14.2 * TotalY(es)
  {
    RunIsOneImpulse(h, s, es);
    KickMomentum(s.points, TotalX(es), TotalY(es));
  }

  // ---------------------------------------------------------------- frames and settling

  ghost function Ticks(es: seq<Event>): nat {
    if |es| == 0 then 0 else Ticks(es[..|es| - 1]) + (if es[|es| - 1].Tick? then 1 else 0)
  }

  /** Until it settles, the ragdoll counts every step; a settled one has counted at least 36,
      of the steps it was given. */
  lemma {:induction false} FramesCountSteps(h: Metric, s: Ragdoll, es: seq<Event>)
    requires |s.points| == 9 && !s.settled
    ensures var r := Run(h, s, es);
            && (!r.settled ==> r.frame == s.frame + Ticks(es))
            && (r.settled ==> 36 <= r.frame <= s.frame + Ticks(es))
  {
    if |es| > 0 {
      hide Solve, AdvanceAll, Drips, AnyMoving, Kicked;
      FramesCountSteps(h, s, es[..|es| - 1]);
    }
  }

  /** A run that ends settled was settled by one of its steps, and has been that step's scene,
      up to one summed impulse on the previous positions, ever since. */
  lemma {:induction false} SettlingMoment(h: Metric, s: Ragdoll, es: seq<Event>) returns (k: nat)
    requires |s.points| == 9 && !s.settled && Run(h, s, es).settled
    ensures k < |es| && es[k].Tick? && !Run(h, s, es[..k]).settled
    ensures var r := Run(h, s, es[..k + 1]);
            && r == Step(h, Run(h, s, es[..k]), es[k].world) && r.settled
            && r.frame == s.frame + Ticks(es[..k + 1])
            && Run(h, s, es) == ApplyImpulse(r, TotalX(es[k + 1..]), TotalY(es[k + 1..]))
            && SameScene(r, Run(h, s, es))
  {
    hide Step, Kicked;
    var n := |es| - 1;
    if Run(h, s, es[..n]).settled {
      k := SettlingMoment(h, s, es[..n]);
      assert es[..n][..k] == es[..k] && es[..n][..k + 1] == es[..k + 1];
    } else {
      k := n;
      assert es[..k + 1] == es;
      FramesCountSteps(h, s, es[..n]);
      StepCounts(h, Run(h, s, es[..n]), es[n].world);
    }
    assert es == es[..k + 1] + es[k + 1..] && es[..k + 1][..k] == es[..k];
    RunConcat(h, s, es[..k + 1], es[k + 1..]);
    RunIsOneImpulse(h, Run(h, s, es[..k + 1]), es[k + 1..]);
    SettledForever(h, Run(h, s, es[..k + 1]), es[k + 1..]);
  }

  lemma {:induction false} StepCounts(h: Metric, s: Ragdoll, w: World)
    requires |s.points| == 9 && !s.settled
    ensures Step(h, s, w).frame == s.frame + 1
  {
  }

  // ---------------------------------------------------------------- impact logs

  /** The two logs agree entry by entry, hold only hard impacts, and at most nine a frame. */
  ghost predicate LogsAgree(s: Ragdoll) {
    && s.trail == Spots(s.drips)
    && |s.drips| <= 9 * s.frame
    && forall i | 0 <= i < |s.drips| :: s.drips[i].speed > 1.0
  }

  lemma {:induction false} DripsAreHard(b: seq<Point>, w: World)
    ensures |Drips(b, w)| <= |b|
    ensures forall i | 0 <= i < |Drips(b, w)| :: Drips(b, w)[i].speed > 1.0 && Drips(b, w)[i].y == w.floor
  {
    if |b| > 0 {
      DripsAreHard(b[..|b| - 1], w);
    }
  }

  ghost predicate HardHit(p: Point, w: World) {
    Hits(p, w) && Abs(VelY(p, w)) > 1.0
  }

  /** The log entry for a joint: where the integration puts it, and how fast it came. */
  ghost function Entry(p: Point, w: World): Drip {
    Drip(Advance(p, w).x, w.floor, Abs(VelY(p, w)))
  }

  /** The entries ds are those of the hard hits among the joints of b, which are the joints
      numbered idx, in joint order. */
  ghost predicate Reports(ds: seq<Drip>, idx: seq<nat>, b: seq<Point>, w: World) {
    && |idx| == |ds|
    && (forall j, k | 0 <= j < k < |idx| :: idx[j] < idx[k])
    && (forall k | 0 <= k < |idx| :: idx[k] < |b| && HardHit(b[idx[k]], w) && ds[k] == Entry(b[idx[k]], w))
    && (forall i: nat | i < |b| && HardHit(b[i], w) :: i in idx)
  }

  lemma {:induction false} ReportsNext(ds: seq<Drip>, idx: seq<nat>, b: seq<Point>, w: World)
    requires |b| > 0 && Reports(ds, idx, b[..|b| - 1], w)
    ensures HardHit(b[|b| - 1], w) ==> Reports(ds + [Entry(b[|b| - 1], w)], idx + [|b| - 1], b, w)
    ensures !HardHit(b[|b| - 1], w) ==> Reports(ds, idx, b, w)
  {
    hide HardHit, Entry;
    var n := |b| - 1;
    var c := b[..n];
    assert forall k | 0 <= k < |idx| :: c[idx[k]] == b[idx[k]];
    forall i: nat | i < |b| && HardHit(b[i], w)
      ensures i < n ==> i in idx
    {
      if i < n { assert c[i] == b[i]; }
    }
  }

  /** A step logs exactly the joints that reach the floor faster than 1.0, in joint order. */
  lemma {:induction false} DripsAreTheHardHits(b: seq<Point>, w: World) returns (idx: seq<nat>)
    ensures Reports(Drips(b, w), idx, b, w)
  {
    if |b| == 0 {
      idx := [];
    } else {
      hide HardHit, Entry, DripOf, Reports;
      var n := |b| - 1;
      idx := DripsAreTheHardHits(b[..n], w);
      DripOfHardHit(b[n], w);
      ReportsNext(Drips(b[..n], w), idx, b, w);
      assert Drips(b[..n], w) + [] == Drips(b[..n], w);
      idx := if HardHit(b[n], w) then idx + [n] else idx;
    }
  }

  lemma DripOfHardHit(p: Point, w: World)
    ensures DripOf(p, w) == if HardHit(p, w) then [Entry(p, w)] else []
  {
  }

  /** An executed step appends to both logs exactly its hard hits; nothing else appends. */
  lemma {:induction false} EventLogs(h: Metric, s: Ragdoll, e: Event) returns (idx: seq<nat>)
    requires |s.points| == 9
    ensures var r := Apply(h, s, e);
            && s.drips <= r.drips && s.trail <= r.trail
            && r.trail[|s.trail|..] == Spots(r.drips[|s.drips|..])
            && (if e.Tick? && !s.settled then Reports(r.drips[|s.drips|..], idx, s.points, e.world)
                else r.drips == s.drips)
  {
    hide Solve, AdvanceAll, AnyMoving, Drips, Reports;
    idx := [];
    if e.Tick? && !s.settled {
      idx := DripsAreTheHardHits(s.points, e.world);
      assert Apply(h, s, e).drips[|s.drips|..] == Drips(s.points, e.world);
    } else {
      assert s.drips[|s.drips|..] == [];
    }
  }

  /** On every run, what event k appends is what the joints it found hit hard, and it is in the
      log of every later state. */
  lemma {:induction false} RunLogs(h: Metric, s: Ragdoll, es: seq<Event>, k: nat) returns (idx: seq<nat>)
    requires |s.points| == 9 && k < |es|
    ensures var a, b, c := Run(h, s, es[..k]), Run(h, s, es[..k + 1]), Run(h, s, es);
            && a.drips <= b.drips <= c.drips && a.trail <= b.trail <= c.trail
            && b.trail[|a.trail|..] == Spots(b.drips[|a.drips|..])
            && (if es[k].Tick? && !a.settled then Reports(b.drips[|a.drips|..], idx, a.points, es[k].world)
                else b.drips == a.drips)
  {
    hide Apply, Reports, Spots;
    assert es[..k + 1][..k] == es[..k];
    idx := EventLogs(h, Run(h, s, es[..k]), es[k]);
    RunOnlyAppends(h, Run(h, s, es[..k + 1]), es[k + 1..]);
    assert es == es[..k + 1] + es[k + 1..];
    RunConcat(h, s, es[..k + 1], es[k + 1..]);
  }

  lemma {:induction false} RunOnlyAppends(h: Metric, s: Ragdoll, es: seq<Event>)
    requires |s.points| == 9
    ensures s.drips <= Run(h, s, es).drips && s.trail <= Run(h, s, es).trail
  {
    if |es| > 0 {
      hide Apply;
      RunOnlyAppends(h, s, es[..|es| - 1]);
      var idx := EventLogs(h, Run(h, s, es[..|es| - 1]), es[|es| - 1]);
    }
  }

  lemma {:induction false} SpotsConcat(a: seq<Drip>, b: seq<Drip>)
    ensures Spots(a + b) == Spots(a) + Spots(b)
  {
  }

  lemma {:induction false} ApplyKeepsLogs(h: Metric, s: Ragdoll, e: Event)
    requires |s.points| == 9 && LogsAgree(s)
    ensures var r := Apply(h, s, e); LogsAgree(r) && s.drips <= r.drips && s.trail <= r.trail
  {
    if e.Tick? && !s.settled {
      hide Solve, AdvanceAll, AnyMoving, Drips, Spots;
      DripsAreHard(s.points, e.world);
      SpotsConcat(s.drips, Drips(s.points, e.world));
    }
  }

  /** On every run the logs agree and only grow. */
  lemma {:induction false} RunKeepsLogs(h: Metric, s: Ragdoll, es: seq<Event>)
    requires |s.points| == 9 && LogsAgree(s)
    ensures var r := Run(h, s, es); LogsAgree(r) && s.drips <= r.drips && s.trail <= r.trail
  {
    if |es| > 0 {
      hide Apply, LogsAgree;
      RunKeepsLogs(h, s, es[..|es| - 1]);
      ApplyKeepsLogs(h, Run(h, s, es[..|es| - 1]), es[|es| - 1]);
    }
  }

  // ---------------------------------------------------------------- the floor holds the centre of mass

  ghost predicate FloorsWithin(es: seq<Event>, bound: real) {
    forall i | 0 <= i < |es| :: es[i].Tick? ==> es[i].world.floor <= bound
  }

  lemma {:induction false} ApplyKeepsCentre(h: Metric, s: Ragdoll, e: Event, bound: real)
    requires IsBody(s.points) && Sum(MomentY, s.points) <= 82.5 * bound
    requires e.Tick? ==> e.world.floor <= bound
    ensures Sum(MomentY, Apply(h, s, e).points) <= 82.5 * bound
  {
    hide Step;
    match e
    case Tick(w) =>
      if s.settled {
        StepWhenSettled(h, s, w);
      } else {
        StepCentreAboveFloor(h, s, w);
      }
    case Impulse(ix, iy) =>
      SumPointwise(MomentY, s.points, MomentY, Kicked(s.points, ix, iy));
  }

  lemma {:induction false} StepWhenSettled(h: Metric, s: Ragdoll, w: World)
    requires |s.points| == 9 && s.settled
    ensures Step(h, s, w) == s
  {
  }

  /** Once on or above a bound, the centre of mass stays there on every run whose floors do. */
  lemma {:induction false} RunKeepsCentre(h: Metric, s: Ragdoll, es: seq<Event>, bound: real)
    requires IsBody(s.points) && Sum(MomentY, s.points) <= 82.5 * bound && FloorsWithin(es, bound)
    ensures Sum(MomentY, Run(h, s, es).points) <= 82.5 * bound
  {
    if |es| > 0 {
      hide Apply, IsBody;
      RunKeepsCentre(h, s, es[..|es| - 1], bound);
      RunKeepsBody(h, s, es[..|es| - 1]);
      ApplyKeepsCentre(h, Run(h, s, es[..|es| - 1]), es[|es| - 1], bound);
    }
  }

  lemma StandingBody(xBase: real, yBase: real, facing: real)
    ensures IsBody(Standing(xBase, yBase, facing).points)
    ensures LogsAgree(Standing(xBase, yBase, facing))
    ensures Sum(MomentY, Standing(xBase, yBase, facing).points) == 82.5 * yBase - 432.5
    ensures Sum(MomentX, Standing(xBase, yBase, facing).points) == 82.5 * xBase
    ensures forall p | p in Standing(xBase, yBase, facing).points :: p.ox == p.x && p.oy == p.y && p.y <= yBase
  {
    SumOfNine(MomentY, Standing(xBase, yBase, facing).points);
    SumOfNine(MomentX, Standing(xBase, yBase, facing).points);
  }

  /** From a fresh ragdoll, the centre of mass is on or above the floor in every reachable
      state, for all runs with floors no lower than the bound, exactly when the standing pose
      already is: when the base is at most 432.5 / 82.5 below the bound. */
  lemma CentreHeldIff(h: Metric, xBase: real, yBase: real, facing: real, bound: real)
    ensures (forall es | FloorsWithin(es, bound) ::
               Sum(MomentY, Run(h, Standing(xBase, yBase, facing), es).points) <= 82.5 * bound)
            <==> 82.5 * yBase - 432.5 <= 82.5 * bound
  {
    var s := Standing(xBase, yBase, facing);
    StandingBody(xBase, yBase, facing);
    hide Standing;
    if 82.5 * yBase - 432.5 <= 82.5 * bound {
      forall es | FloorsWithin(es, bound) ensures Sum(MomentY, Run(h, s, es).points) <= 82.5 * bound {
        RunKeepsCentre(h, s, es, bound);
      }
    } else {
      assert FloorsWithin([], bound) && Run(h, s, []) == s;
    }
  }

  // ---------------------------------------------------------------- the last constraints hold

  /** The shins and the left shoulder brace are at rest length, or their joints coincide. */
  ghost predicate LimbsExact(b: seq<Point>)
    requires |b| == 9
  {
    && Satisfied(b, CONSTRAINT_PAIRS[6])
    && Satisfied(b, CONSTRAINT_PAIRS[7])
    && Satisfied(b, CONSTRAINT_PAIRS[9])
  }

  lemma {:induction false} StepMakesLimbsExact(h: Metric, s: Ragdoll, w: World)
    requires IsHypot(h) && |s.points| == 9 && !s.settled
    ensures LimbsExact(Step(h, s, w).points)
  {
    hide Solve, Advance, AnyMoving, Drips, IsHypot, AtDistance, Coincide, LastSeen;
    forall t: nat | t == 6 || t == 7 || t == 9
      ensures Satisfied(Solve(h, AdvanceAll(s.points, w), PASSES), CONSTRAINT_PAIRS[t])
    {
      ShinsAndBraceExact(h, AdvanceAll(s.points, w), PASSES, t);
    }
  }

  lemma {:induction false} KickKeepsLimbs(b: seq<Point>, ix: real, iy: real)
    requires |b| == 9 && LimbsExact(b)
    ensures LimbsExact(Kicked(b, ix, iy))
  {
    hide KickedPoint;
    forall t: nat | t == 6 || t == 7 || t == 9 ensures Satisfied(Kicked(b, ix, iy), CONSTRAINT_PAIRS[t]) {
      var c := CONSTRAINT_PAIRS[t];
      KickedPlace(b[c.first], c.first, ix, iy);
      KickedPlace(b[c.second], c.second, ix, iy);
      assert Satisfied(b, c);
    }
  }

  lemma {:induction false} KickedPlace(p: Point, i: nat, ix: real, iy: real)
    requires i < 9
    ensures var q := KickedPoint(p, i, ix, iy); q.x == p.x && q.y == p.y && q.m == p.m
  {
  }

  /** In every state reached by at least one executed step, whatever impulses came before or
      since, those three pairs are at exactly 5.0, 5.0 and 6.5, or stuck together. */
  lemma {:induction false} RunKeepsLimbsExact(h: Metric, s: Ragdoll, es: seq<Event>)
    requires IsHypot(h) && |s.points| == 9 && Run(h, s, es).frame > s.frame
    ensures LimbsExact(Run(h, s, es).points)
  {
    hide Step, IsHypot, LimbsExact, Kicked;
    if |es| > 0 {
      var r, e := Run(h, s, es[..|es| - 1]), es[|es| - 1];
      if e.Tick? && !r.settled {
        StepMakesLimbsExact(h, r, e.world);
      } else {
        if e.Tick? { StepWhenSettled(h, r, e.world); }
        RunKeepsLimbsExact(h, s, es[..|es| - 1]);
        if e.Impulse? { KickKeepsLimbs(r.points, e.ix, e.iy); }
      }
    }
  }
}
