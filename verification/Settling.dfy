/** Which runs settle and which do not: from a fresh ragdoll, from a body at rest, and against
    impulses that keep it awake. */
module Settling {
  import opened Algebra
  import opened Model
  import opened Solver
  import opened Integration
  import opened Runs
  import opened Poses

  // ---------------------------------------------------------------- a body without grip settles

  /** Steps on a floor at this level that take all sideways motion, and blows that do not lift. */
  ghost predicate Stops(e: Event, level: real) {
    PressesDown(e, level) && (e.Tick? ==> e.world.friction == 0.0)
  }

  /** Joints so little below the line that their rebound from it reads as still. */
  ghost predicate Shallow(b: seq<Point>, level: real) {
    forall i | 0 <= i < |b| :: ReboundsLittle(b[i].y, b[i].m, level)
  }

  ghost predicate ReboundsLittle(y: real, m: Mass, level: real) {
    Abs(Rebound(y, m, level)) <= 0.04
  }

  lemma {:induction false} FlatIsShallow(b: seq<Point>, level: real)
    requires Flat(b, level)
    ensures Shallow(b, level)
  {
    hide Restitution;
  }

  lemma {:induction false} KickKeepsShallow(b: seq<Point>, ix: real, iy: real, level: real)
    requires |b| == 9
    ensures Shallow(Kicked(b, ix, iy), level) <==> Shallow(b, level)
  {
    hide KickedPoint, ReboundsLittle;
    var c := Kicked(b, ix, iy);
    forall i | 0 <= i < 9 ensures c[i].y == b[i].y && c[i].m == b[i].m {
      KickedPlace(b[i], i, ix, iy);
    }
  }

  /** A step with friction factor zero lays a pressed body flat, and settles it if and only if
      the frame count allows it and the body was shallow. */
  lemma {:induction false} PressedStep(h: Metric, s: Ragdoll, w: World)
    requires |s.points| == 9 && !s.settled && AllPressed(s.points, w.floor) && w.gravity >= 0.0 && w.friction == 0.0
    ensures var r := Step(h, s, w);
            && Flat(r.points, w.floor) && AllPressed(r.points, w.floor)
            && (r.settled <==> s.frame >= 35 && Shallow(s.points, w.floor))
  {
    hide Step, Flat, ReadsStill, Pressed, ReboundsLittle;
    StepFlattens(h, s, w);
    FlatIsPressed(Step(h, s, w).points, w.floor);
    SettlesIff(h, s, w);
    forall i | 0 <= i < 9
      ensures ReadsStill(s.points[i], w) <==> ReboundsLittle(s.points[i].y, s.points[i].m, w.floor)
    {
      PressedReading(s.points[i], w);
    }
  }

  lemma PressedReading(p: Point, w: World)
    requires Pressed(p, w.floor) && w.gravity >= 0.0 && w.friction == 0.0
    ensures ReadsStill(p, w) <==> ReboundsLittle(p.y, p.m, w.floor)
  {
    hide Rebound, Slowed, Pressed, Hits;
    AdvancePressed(p, w);
    NoGrip(p, w);
  }

  lemma NoGrip(p: Point, w: World)
    requires w.friction == 0.0
    ensures Slowed(p, w) == 0.0
  {
  }

  /** Whatever a pressed body does sideways, it is flat after its first step. It settles exactly
      when its frame count reaches 36; if 35 or more frames were counted before, then on its
      first step if it was shallow and on its second otherwise. */
  lemma {:induction false} PressedSettles(h: Metric, s: Ragdoll, es: seq<Event>, level: real)
    requires |s.points| == 9 && !s.settled && AllPressed(s.points, level)
    requires forall i | 0 <= i < |es| :: Stops(es[i], level)
    ensures var r, n := Run(h, s, es), Ticks(es);
            && (r.settled <==> if s.frame <= 34 then s.frame + n >= 36
                               else n >= 2 || (n == 1 && Shallow(s.points, level)))
            && AllPressed(r.points, level)
            && (n > 0 ==> Flat(r.points, level))
            && (n == 0 ==> (Shallow(r.points, level) <==> Shallow(s.points, level)))
  {
    if |es| > 0 {
      hide Step, Kicked, Flat, AllPressed, Shallow;
      var r, e := Run(h, s, es[..|es| - 1]), es[|es| - 1];
      PressedSettles(h, s, es[..|es| - 1], level);
      FramesCountSteps(h, s, es[..|es| - 1]);
      assert Stops(e, level);
      match e
      case Tick(w) =>
        if r.settled {
          StepWhenSettled(h, r, w);
        } else {
          PressedStep(h, r, w);
          if Ticks(es[..|es| - 1]) > 0 {
            FlatIsShallow(r.points, level);
          }
        }
      case Impulse(ix, iy) =>
        KickPresses(r.points, ix, iy, level);
        KickKeepsShallow(r.points, ix, iy, level);
        if Ticks(es[..|es| - 1]) > 0 {
          ApplyFlat(h, r, e, level);
        }
    }
  }

  /** A fresh ragdoll on a floor no lower than its head, with friction factor zero, settles on
      exactly its 36th step, through any sideways impulses and downward blows. */
  lemma {:induction false} FreshSettles(h: Metric, xBase: real, yBase: real, facing: real, es: seq<Event>, level: real)
    requires level <= yBase - 14.0 && forall i | 0 <= i < |es| :: Stops(es[i], level)
    ensures Run(h, Standing(xBase, yBase, facing), es).settled <==> Ticks(es) >= 36
  {
    hide Standing, AllPressed, Shallow;
    StandingPressed(xBase, yBase, facing, level);
    PressedSettles(h, Standing(xBase, yBase, facing), es, level);
  }

  lemma StandingPressed(xBase: real, yBase: real, facing: real, level: real)
    requires level <= yBase - 14.0
    ensures var s := Standing(xBase, yBase, facing);
            |s.points| == 9 && !s.settled && s.frame == 0 && AllPressed(s.points, level)
  {
  }

  // ---------------------------------------------------------------- what a settled body looks like

  /** If a step under gravity above 0.04 settles a ragdoll with no joint rising, then it lays
      every joint on the floor line, and every later run leaves it there, with its torso out
      of shape: neck, shoulder and hips cannot all be at their rest lengths. */
  lemma {:induction false} SettledIsFlat(h: Metric, s: Ragdoll, w: World, es: seq<Event>, shoulder: nat)
    requires |s.points| == 9 && !s.settled && w.gravity > 0.04 && Step(h, s, w).settled
    requires forall i | 0 <= i < 9 :: s.points[i].y >= s.points[i].oy
    requires shoulder == 2 || shoulder == 3
    ensures var b := Run(h, Step(h, s, w), es).points;
            && Level(b, w.floor)
            && !(AtDistance(b[1], b[shoulder], 3.5) && AtDistance(b[shoulder], b[4], 6.5) && AtDistance(b[1], b[4], 7.5))
  {
    hide Step, AtDistance;
    var r := Step(h, s, w);
    SettlingLands(h, s, w);
    SettledForever(h, r, es);
    var b := Run(h, r, es).points;
    LevelTorso(b[1], b[shoulder], b[4]);
  }

  lemma {:induction false} SettlingLands(h: Metric, s: Ragdoll, w: World)
    requires |s.points| == 9 && !s.settled && w.gravity > 0.04 && Step(h, s, w).settled
    requires forall i | 0 <= i < 9 :: s.points[i].y >= s.points[i].oy
    ensures |Step(h, s, w).points| == 9 && Level(Step(h, s, w).points, w.floor)
  {
    hide Solve, Advance, Moving, Hits;
    var a := AdvanceAll(s.points, w);
    forall i | 0 <= i < 9 ensures a[i].y == w.floor {
      assert !Moving(a[i]);
      StillJointIsOnFloor(s.points[i], w);
      AdvanceOfHit(s.points[i], w);
    }
    SolveLevel(h, a, PASSES, w.floor);
  }

  lemma AdvanceOfHit(p: Point, w: World)
    requires Hits(p, w)
    ensures Advance(p, w).y == w.floor
  {
  }

  lemma LevelTorso(p: Point, q: Point, r: Point)
    requires p.y == q.y == r.y
    ensures !(AtDistance(p, q, 3.5) && AtDistance(q, r, 6.5) && AtDistance(p, r, 7.5))
  {
    hide NearRest, AtDistance;
    AtRestIsNear(p, q, 3.5);
    AtRestIsNear(q, r, 6.5);
    AtRestIsNear(p, r, 7.5);
    if AtDistance(p, q, 3.5) && AtDistance(q, r, 6.5) {
      TorsoNeedsHeight(p, q, r);
    }
  }

  lemma AtRestIsNear(p: Point, q: Point, rest: real)
    requires rest >= 0.5
    ensures AtDistance(p, q, rest) ==> NearRest(p, q, rest)
  {
    SquareLe(rest - 0.5, rest);
    SquareLe(rest, rest + 0.5);
  }

  // ---------------------------------------------------------------- a standing body does not settle

  /** The standing pose itself is never recognised as settled, at any frame count, for any
      facing, wherever the floor is: not even on a floor that holds every joint up. */
  lemma {:induction false} StandingStaysAwake(h: Metric, s: Ragdoll, w: World,
                                              xBase: real, yBase: real, facing: real)
    requires s.points == StandingPoints(xBase, yBase, facing) && !s.settled && w.gravity > 0.04
    ensures !Step(h, s, w).settled
  {
    hide Advance, Moving, Solve;
    var neck, hips := s.points[1], s.points[4];
    assert hips.y - neck.y == 7.0;
    if !Moving(Advance(neck, w)) && !Moving(Advance(hips, w)) {
      StillJointIsOnFloor(neck, w);
      StillJointIsOnFloor(hips, w);
    }
    var a := AdvanceAll(s.points, w);
    assert Moving(a[1]) || Moving(a[4]);
  }

  // ---------------------------------------------------------------- impulses that prevent settling

  lemma FastHead(p: Point, w: World) returns (ix: real)
    requires w.friction != 0.0
    ensures !ReadsStill(KickedPoint(p, 0, ix, 0.0), w)
  {
    hide Damping, ReadsStill, VelX;
    DampingRange(p.m);
    var d := Damping(p.m);
    var v := FastEnoughFor(w.friction);
    ix := (v / d - (p.x - p.ox)) / 2.6;
    var q := KickedPoint(p, 0, ix, 0.0);
    FastVelocity(q, d, v);
    FastIsNotStill(q, w, v, v * w.friction);
  }

  lemma FastEnoughFor(f: real) returns (v: real)
    requires f != 0.0
    ensures v > 1.0 && Abs(v * f) > 1.0
  {
    var c := Abs(f);
    v := 1.0 + 1.0 / c;
    assert 1.0 / c > 0.0;
    assert (1.0 / c) * c == 1.0;
    assert v * c == c + 1.0;
  }

  lemma FastVelocity(q: Point, d: real, v: real)
    requires d == Damping(q.m) && d > 0.0 && q.x - q.ox == v / d
    ensures VelX(q) == v
  {
    hide Damping;
    assert (v / d) * d == v;
  }

  lemma FastIsNotStill(q: Point, w: World, v: real, a: real)
    requires VelX(q) == v && a == v * w.friction && v > 1.0 && Abs(a) > 1.0
    ensures !ReadsStill(q, w)
  {
    hide VelX, VelY, Rebound;
    assert Slowed(q, w) == a;
  }

  /** One sideways impulse keeps any ragdoll awake through any step that has some friction. */
  lemma {:induction false} WakingImpulse(h: Metric, s: Ragdoll, w: World) returns (ix: real)
    requires |s.points| == 9 && !s.settled && w.friction != 0.0
    ensures !Step(h, ApplyImpulse(s, ix, 0.0), w).settled
  {
    hide Step, ReadsStill, KickedPoint;
    ix := FastHead(s.points[0], w);
    var r := ApplyImpulse(s, ix, 0.0);
    assert r.points[0] == KickedPoint(s.points[0], 0, ix, 0.0);
    SettlesIff(h, r, w);
  }

  /** Steps through the given worlds, each after a sideways impulse. */
  ghost predicate Driven(es: seq<Event>, ws: seq<World>) {
    && |es| == 2 * |ws|
    && forall i | 0 <= i < |ws| ::
         es[2 * i].Impulse? && es[2 * i].iy == 0.0 && es[2 * i + 1] == Tick(ws[i])
  }

  /** Whatever the floors, gravities and nonzero frictions, sideways impulses can keep any
      ragdoll, a fresh one among them, from settling through any number of steps. */
  lemma {:induction false} KeptAwake(h: Metric, s: Ragdoll, ws: seq<World>) returns (es: seq<Event>)
    requires |s.points| == 9 && !s.settled && forall i | 0 <= i < |ws| :: ws[i].friction != 0.0
    ensures Driven(es, ws) && !Run(h, s, es).settled
  {
    if |ws| == 0 {
      es := [];
    } else {
      hide Step, Kicked;
      var n := |ws| - 1;
      var before := KeptAwake(h, s, ws[..n]);
      var r := Run(h, s, before);
      var ix := WakingImpulse(h, r, ws[n]);
      var pushed := before + [Impulse(ix, 0.0)];
      es := pushed + [Tick(ws[n])];
      assert pushed[..|pushed| - 1] == before && es[..|es| - 1] == pushed;
      assert Run(h, s, pushed) == ApplyImpulse(r, ix, 0.0);
      DrivenFurther(before, ws, ix);
    }
  }

  lemma {:induction false} DrivenFurther(es: seq<Event>, ws: seq<World>, ix: real)
    requires |ws| > 0 && Driven(es, ws[..|ws| - 1])
    ensures Driven(es + [Impulse(ix, 0.0)] + [Tick(ws[|ws| - 1])], ws)
  {
    var n := |ws| - 1;
    var fs := es + [Impulse(ix, 0.0)] + [Tick(ws[n])];
    forall i | 0 <= i < |ws|
      ensures fs[2 * i].Impulse? && fs[2 * i].iy == 0.0 && fs[2 * i + 1] == Tick(ws[i])
    {
      if i < n {
        assert es[2 * i] == fs[2 * i] && es[2 * i + 1] == fs[2 * i + 1] && ws[..n][i] == ws[i];
      }
    }
  }
}
