/** The solver knows nothing of the floor: a step from a body wholly on or above it can leave a
    foot below it. */
module Submerged {
  import opened Algebra
  import opened Model
  import opened Sums
  import opened Solver
  import opened FixedPass
  import opened SolverEnergy

  /** Everything but the right leg bundled at the origin, the right knee at hip distance and the
      right foot too close below it. The argument is the height of the knee. */
  ghost function Bundle(kneeY: real, footY: real): (b: seq<Point>)
    ensures |b| == 9
  {
    seq(9, i requires 0 <= i < 9 =>
      if i == 5 then Point(616.0 / 113.0, kneeY, 616.0 / 113.0, 82.5 / 113.0, 8.0)
      else if i == 7 then Point(616.0 / 113.0, footY, 616.0 / 113.0, 152.5 / 113.0, 4.0)
      else Still(0.0, 0.0, JOINT_MASS[i]))
  }

  ghost function Crouched(): (b: seq<Point>)
    ensures |b| == 9
  {
    Bundle(82.5 / 113.0, 152.5 / 113.0)
  }

  /** The knee pushed up to its mirror image, the foot pushed down through the floor. */
  ghost function Pushed(): (b: seq<Point>)
    ensures |b| == 9
  {
    Bundle(-82.5 / 113.0, 482.5 / 113.0)
  }

  const FLOOR: World := World(152.5 / 113.0, 0.0, 0.76)

  lemma StillJointStays(p: Point, w: World)
    requires p.ox == p.x && p.oy == p.y && p.y <= w.floor && w.gravity == 0.0
    ensures Advance(p, w) == p && !Moving(p)
  {
    hide Damping, Restitution;
    assert VelX(p) == 0.0 && VelY(p, w) == 0.0;
  }

  lemma CrouchedIsStill()
    ensures IsBody(Crouched())
    ensures forall i | 0 <= i < 9 ::
              var p := Crouched()[i]; p.y <= FLOOR.floor && p.ox == p.x && p.oy == p.y
  {
  }

  lemma CrouchedStays()
    ensures AdvanceAll(Crouched(), FLOOR) == Crouched()
  {
    hide Advance, Crouched;
    CrouchedIsStill();
    forall i | 0 <= i < 9 ensures Advance(Crouched()[i], FLOOR) == Crouched()[i] {
      StillJointStays(Crouched()[i], FLOOR);
    }
  }

  lemma {:induction false} CrouchedSatisfied(k: nat)
    requires k < 10 && k != 6
    ensures Satisfied(Crouched(), CONSTRAINT_PAIRS[k])
  {
  }

  lemma PushedSatisfied()
    ensures AllSatisfied(Pushed(), CONSTRAINT_PAIRS)
  {
  }

  lemma MetricDown(h: Metric, d: real)
    requires IsHypot(h)
    ensures h(0.0, d) == Abs(d)
  {
    assert h(0.0, d) * h(0.0, d) == 0.0 * 0.0 + d * d;
    RootLe(h(0.0, d), Abs(d));
    RootLe(Abs(d), h(0.0, d));
  }

  /** Constraint 6, the right shin. */
  lemma ShinPushes(h: Metric)
    requires IsHypot(h)
    ensures Project(h, Crouched(), CONSTRAINT_PAIRS[6]) == Pushed()
  {
    MetricDown(h, 70.0 / 113.0);
  }

  lemma {:induction false} CrouchedAt(h: Metric, k: nat)
    requires IsHypot(h) && k <= 10
    ensures At(h, Crouched(), k) == if k <= 6 then Crouched() else Pushed()
  {
    hide IsHypot, Crouched, Pushed, At, Project, Satisfied;
    if k == 0 {
      AtEnds(h, Crouched());
    } else {
      CrouchedAt(h, k - 1);
      AtNext(h, Crouched(), k - 1);
      if k == 7 {
        ShinPushes(h);
      } else if k <= 6 {
        CrouchedSatisfied(k - 1);
        ProjectIdleIff(h, Crouched(), CONSTRAINT_PAIRS[k - 1]);
      } else {
        PushedSatisfied();
        ProjectIdleIff(h, Pushed(), CONSTRAINT_PAIRS[k - 1]);
      }
    }
  }

  lemma {:induction false} CrouchedSolve(h: Metric, n: nat)
    requires IsHypot(h) && n > 0
    ensures Solve(h, Crouched(), n) == Pushed()
  {
    hide IsHypot, Crouched, Pushed, At, Pass, AllSatisfied;
    CrouchedAt(h, 10);
    AtEnds(h, Crouched());
    if n > 1 {
      CrouchedSolve(h, n - 1);
      PushedSatisfied();
      SatisfiedStays(h, Pushed(), 1);
    }
  }

  /** From a still body with every joint on or above the floor, without gravity, one step puts
      the right foot more than 2.9 below it and creates kinetic energy out of none, whatever
      the rest of the state. */
  lemma {:induction false} StepSubmerges(h: Metric, s: Ragdoll)
    requires IsHypot(h) && s.points == Crouched() && !s.settled
    ensures IsBody(s.points)
    ensures forall p | p in s.points :: p.y <= FLOOR.floor && p.ox == p.x && p.oy == p.y
    ensures Step(h, s, FLOOR).points[7].y > FLOOR.floor + 2.9
    ensures Sum(Kinetic, s.points) == 0.0 && Sum(Kinetic, Step(h, s, FLOOR).points) > 25.0
  {
    hide IsHypot, Crouched, Pushed, Solve, AdvanceAll, AnyMoving, Drips;
    CrouchedIsStill();
    CrouchedStays();
    CrouchedSolve(h, PASSES);
    PushedMoves();
    EnergyOfBody(Crouched());
  }

  lemma {:induction false} PushedMoves()
    ensures Pushed()[7].y == 482.5 / 113.0 && Sum(Kinetic, Pushed()) > 25.0
  {
    EnergyOfTwo(Pushed(), 5, 7);
    KineticOfPushed();
  }

  lemma KineticOfPushed()
    ensures Kinetic(Pushed()[5]) > 8.5 && Kinetic(Pushed()[7]) > 17.0
  {
  }
}
