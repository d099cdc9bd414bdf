# A verified model of the medieval ragdoll

This project models `VerletRagdoll`, the nine-joint, mass-weighted ragdoll that
`patch_medieval_ragdoll.py` installs for armoured knockdowns, and proves what it does over
every input, every state and every interleaving of steps and impulses. `dafny verify
dfyconfig.toml` checks everything.

A ragdoll is nine joints. Each holds its position, its previous position (their difference is
the velocity, one frame being the unit of time) and its mass. A step moves every joint by its
damped velocity plus gravity, puts joints that reach the floor on it with a rebound and a
friction factor, then makes six passes over ten distance constraints. Each constraint moves two
joints in place and reads what the earlier ones wrote. An impulse only moves previous
positions back. From the 36th step on, a step that finds no joint moving settles the ragdoll for
good. Larger y is lower on the screen: a joint has reached the floor when y >= floor.

## How the model is built

- `Model.dfy` gives every operation as a function on values: `Advance` for one joint,
  `Project`, `Pass` and `Solve` for the constraints, `Step`, `ApplyImpulse`, and `Run` for an
  arbitrary sequence of events.
- `Ragdoll.dfy` is the same ragdoll as an object: joint records updated in place by the
  integration loop and the nested constraint loops. Each method is proved to compute the
  function of `Model.dfy`, so every theorem below is about the object too.
- `Solver.dfy` and `Projection.dfy` hold the laws of the constraints, `Integration.dfy` those
  of motion, contact and energy, `Drift.dfy` a conserved quantity, `Symmetry.dfy` reflection
  and translation, `Runs.dfy` whole runs, `FixedPass.dfy` what a pass that changes nothing
  means, `Poses.dfy`, `Settling.dfy` and `StuckPose.dfy` the settling latch, `Submerged.dfy` and
  `FreshSubmerged.dfy` joints pushed through the floor, `SolverEnergy.dfy` when the constraints
  add energy, `Figures.dfy` what the source's figures amount to for a whole body. `Sums.dfy` and `Algebra.dfy` are the arithmetic underneath.

Numbers are exact reals. The library call `math.hypot` is a function argument `h`. Only the
theorems that need a distance assume its defining equation (`IsHypot`), which the true
distance satisfies; balance, momentum, turning effect, freezing and logging hold whatever `h`
returns. The zero-distance fallback of 0.001 is kept. The floor, gravity and friction are
arguments of each step, as in the source.

## What turned out not to hold

- *Contact only takes energy out.* False for a joint below the floor, where the constraints can
  put one: in one step without gravity, `FreshSubmerges` puts both knees of a fresh ragdoll
  through its own base line and `StepSubmerges` the foot of a crouched one. `ContactSafeIff`
  proves the property holds at every velocity exactly when the joint starts on or above the
  floor, the friction factor is within [-1, 1], and a joint starting above the floor has a
  restitution of at most one, as every mass of the table has.
- *A whole step without gravity takes energy out.* The integration loop does
  (`IntegrationDissipates`), the constraints need not: both steps just named create kinetic
  energy out of none. `SafeIffFixed` proves that any number of passes adds energy at no
  velocity exactly when it moves no joint, and `PassSafeIff` that one pass adds energy at no
  velocity exactly when every constraint is satisfied, for shoulders not in line with neck and
  hips; `SatisfiedIsSafe` covers any number of passes from a satisfied body.
- *A projection puts its pair at rest length.* False for coincident joints, which stay stuck
  together. `PairExact` proves it holds exactly for distinct joints.
- *A body that a pass leaves where it was satisfies its constraints.* False for a torso folded
  onto a line: `StuckUnderSolver` gives a flat pose that every pass carries back onto itself
  with six of ten constraints violated. `FixedPassIff` proves that for every body whose
  shoulders are not in line with neck and hips, a pass returns it to its start if and only if
  all constraints are satisfied.
- *A body at rest settles.* The latch reads velocities taken before the constraints act
  (`SettlesIff`). A torso in a sound pose that is not rising is never recognised as settled
  (`RestingTorsoStaysAwake`); the standing pose is such a pose at any frame count
  (`StandingStaysAwake`). If a body that is not rising does settle, it is frozen flat on the
  floor with its torso out of shape (`SettledIsFlat`). Settling does happen: a fresh ragdoll on
  a floor no lower than its head, with friction factor zero, settles on exactly its 36th step
  (`FreshSettles`). With any other friction, sideways impulses can prevent it for any number
  of steps (`KeptAwake`).

## Model

| member | source | states |
|---|---|---|
| `RagdollObject.VerletRagdoll.constructor` | patch_medieval_ragdoll.py:17-34 | a new ragdoll is the standing pose with nine distinct, freshly allocated joints of the table's masses, unsettled, at frame 0, with empty logs |
| `RagdollObject.VerletRagdoll.ApplyImpulse` | patch_medieval_ragdoll.py:36-50 | the in-place updates of seven joints' previous positions compute `Model.ApplyImpulse` on the whole state; the feet and all positions stay |
| `RagdollObject.VerletRagdoll.TotalKineticEnergy` | patch_medieval_ragdoll.py:52-58 | the accumulating loop returns the sum of the joints' kinetic energies |
| `RagdollObject.Joint.Integrate` | patch_medieval_ragdoll.py:66-84 | one iteration of the integration loop, update by update, computes `Advance`, reports whether the joint still moves and which impact is to be logged |
| `RagdollObject.VerletRagdoll.IntegrateAll` | patch_medieval_ragdoll.py:64-84 | the loop advances every joint independently, finds whether any moves, and appends the impacts to both logs in joint order |
| `RagdollObject.Constrain` | patch_medieval_ragdoll.py:89-101 | the four in-place updates of one constraint compute both moved joints from the two joints' values before it |
| `RagdollObject.VerletRagdoll.SolveConstraints` | patch_medieval_ragdoll.py:87-101 | the nested loops over shared joint records refine the left fold of the ten projections, six times, in table order |
| `RagdollObject.VerletRagdoll.Step` | patch_medieval_ragdoll.py:60-104 | a step on the object refines the pure step on its value, in every field, settled or not |
| `RagdollObject.VerletRagdoll.StepByDefault` | patch_medieval_ragdoll.py:60 | a step without arguments is the step with floor 24.0, gravity 0.46 and friction 0.76 |
| `RagdollObject.VerletRagdoll.Facing` | patch_medieval_ragdoll.py:17 | a ragdoll built without a facing is the standing one of facing 1 |
| `Figures.StepIsSixtyProjections` | patch_medieval_ragdoll.py:87-101 | an executed step is the integration of every joint followed by exactly sixty projections, the table in order six times over |
| `Figures.ReboundMomentum` | patch_medieval_ragdoll.py:74-78 | a joint that reaches the floor leaves it with vertical momentum -(0.15 m + 0.06) times its height above it before the step |
| `Figures.CommonRebound` | patch_medieval_ragdoll.py:65-78 | a whole body reaching the floor from a common height d leaves it with vertical momentum -12.915 d |
| `Figures.CommonMotionDamped` | patch_medieval_ragdoll.py:65-79 | a body in common motion keeps 78.021796875 times its velocity as momentum in flight, gravity's 83.22 added, and the friction factor's share of it sideways on the floor |
| `Figures.CommonMotionEnergy` | patch_medieval_ragdoll.py:52-58 | a body in common motion has kinetic energy 41.25 times its squared speed |
| `Figures.ImpulseEnergy` | patch_medieval_ragdoll.py:36-58 | the exact work an impulse does on any body: linear in seven joints' velocities, plus 31.695 ix^2 + 12.52 iy^2 |
| `Figures.StandingImpulseEnergy` | patch_medieval_ragdoll.py:17-58 | an impulse gives a fresh ragdoll exactly 31.695 ix^2 + 12.52 iy^2 of kinetic energy |
| `Figures.StandingShape` | patch_medieval_ragdoll.py:19-29 | the right side stands 6, 4 and 4 times the facing from the left at shoulders, knees and feet, with their midpoints above the base, and every height is fixed |
| `Figures.StandingSatisfiedIff` | patch_medieval_ragdoll.py:13-29 | exactly for which facings each constraint holds in the standing pose |
| `Figures.FirstPassCanHeat` | patch_medieval_ragdoll.py:13-101 | for every facing but 0 there is a velocity at which the first pass adds kinetic energy to a fresh pose |
| `Figures.RunKeepsFacing` | patch_medieval_ragdoll.py:30-104 | through every run a ragdoll faces the way it was built |
| `Projection.ProjectionOptimal` | patch_medieval_ragdoll.py:91-101 | over all placements of two distinct joints at rest length, a projection has the least mass-weighted squared displacement, and it is the only placement with that cost |
| `Projection.ProjectionCostValue` | patch_medieval_ragdoll.py:91-101 | that least cost is the reduced mass times (distance - rest length) squared |
| `Solver.PairExact` | patch_medieval_ragdoll.py:91-101 | after a projection its pair is at rest length if and only if the joints were distinct; coincident joints do not move |
| `Solver.SolveKeeps` | patch_medieval_ragdoll.py:87-101 | any number of passes from any positions keeps both mass moments exactly and never touches a mass or a previous position |
| `Solver.SolveKeepsMomentum` | patch_medieval_ragdoll.py:87-101 | hence it keeps total momentum along both axes |
| `Solver.SolveDoesNotTurn` | patch_medieval_ragdoll.py:87-101 | the turning effect accumulated over all projections, about any pivot, is exactly zero |
| `Solver.LastTouchExact` | patch_medieval_ragdoll.py:87-101 | for any table, a constraint whose joints no later constraint touches is still enforced when the pass ends |
| `Solver.ShinsAndBraceExact` | patch_medieval_ragdoll.py:13-101 | the shins and the left shoulder brace leave the solver at exactly 5.0, 5.0 and 6.5 if and only if the pair was distinct when last projected, and coincident otherwise |
| `Solver.ProjectIdempotent` | patch_medieval_ragdoll.py:91-101 | projecting the same constraint again changes nothing |
| `FixedPass.FixedPassIff` | patch_medieval_ragdoll.py:13-101 | for every body whose shoulders are not in line with neck and hips, a pass over the table returns it to its start if and only if every constraint is at rest length or has coincident joints |
| `FixedPass.SatisfiedStays` | patch_medieval_ragdoll.py:87-101 | a body whose constraints are all satisfied, in line or not, is left alone by any number of passes |
| `Integration.StepBalance` | patch_medieval_ragdoll.py:65-101 | an unsettled step takes the horizontal mass moment to the sum of m(x + damped velocity) and the vertical one to the sum of m min(floor, y + velocity) |
| `Integration.FreeStepBalance` | patch_medieval_ragdoll.py:65-101 | with no contact, gravity adds exactly 83.22 times itself to the vertical mass moment |
| `Integration.StepCentreAboveFloor` | patch_medieval_ragdoll.py:74-101 | after any unsettled step, from any positions, the centre of mass is on or above the floor |
| `Integration.ContactDissipatesBody` | patch_medieval_ragdoll.py:65-84 | for joints starting on or above the floor and friction within [-1, 1], contact leaves at most the free-flight kinetic energy |
| `Integration.IntegrationDissipates` | patch_medieval_ragdoll.py:52-84 | without gravity the integration loop leaves at most 0.9216 of the kinetic energy |
| `Integration.ContactSafeIff` | patch_medieval_ragdoll.py:74-79 | for any mass and height: contact raises the joint's energy at no velocity if and only if the joint starts on or above the floor, friction is within [-1, 1] and, above the floor, restitution is at most one |
| `SolverEnergy.PassSafeIff` | patch_medieval_ragdoll.py:52-101 | for every body whose shoulders are not in line with neck and hips, a pass over the table raises the kinetic energy at no velocity if and only if every constraint is satisfied |
| `SolverEnergy.SafeIffFixed` | patch_medieval_ragdoll.py:52-101 | for any positions and any number of passes, the solver raises the kinetic energy at no velocity if and only if it moves no joint |
| `SolverEnergy.SatisfiedIsSafe` | patch_medieval_ragdoll.py:52-101 | a body whose constraints are all satisfied gains no energy from any number of passes, at any velocity |
| `FreshSubmerged.FreshSubmerges` | patch_medieval_ragdoll.py:17-104 | a fresh ragdoll of facing 0, still and on or above its base line, has both knees more than 1.0 below that line and kinetic energy above 32 after one step on it without gravity, at any friction |
| `Submerged.StepSubmerges` | patch_medieval_ragdoll.py:60-104 | from a concrete still body with every joint on or above the floor, without gravity, one step puts a foot more than 2.9 below the floor and raises the kinetic energy from 0 to above 25 |
| `Integration.SettlingIsQuiet` | patch_medieval_ragdoll.py:83-104 | on the settling step the energy before the constraints is at most 0.132 and the momentum the body is frozen with at most 3.3 along each axis |
| `Integration.SolverLeavesDriftEnergy` | patch_medieval_ragdoll.py:87-101 | the solver cannot remove the kinetic energy of the body's common motion: 165 times the energy it leaves is at least the squared momentum it found |
| `Drift.StepDrift` | patch_medieval_ragdoll.py:65-101 | from any state, the sum of m(x - damping times ox), and of its vertical counterpart, changes in a step only by gravity and by what landings take |
| `Drift.RunDrift` | patch_medieval_ragdoll.py:36-104 | over every run, those sums change by the listed entries for impulses, executed steps' gravity and landings, and by nothing else |
| `Drift.AirborneDrift` | patch_medieval_ragdoll.py:36-104 | over every run without contact they are conserved up to 43.104703125 and 13.26665625 times the impulses and 83.22 times the gravity put in |
| `Symmetry.RunCommutes` | patch_medieval_ragdoll.py:36-104 | reflecting or translating any ragdoll together with its floors and impulses reflects or translates every later state and log, and leaves settling, frame count and impact speeds alone |
| `Symmetry.MirrorRuns` | patch_medieval_ragdoll.py:17-104 | a ragdoll built facing the other way and driven by mirrored impulses stays the exact reflection about its base |
| `Symmetry.ShiftedRuns` | patch_medieval_ragdoll.py:17-104 | building the ragdoll elsewhere, floors included, translates every run |
| `Runs.RunIsOneImpulse` | patch_medieval_ragdoll.py:36-63 | any sequence of impulses, and any run at all after settling, equals one impulse with the summed components |
| `Runs.ImpulsesAddMomentum` | patch_medieval_ragdoll.py:36-50 | impulses move no joint and add exactly 45.8 and 14.2 times their summed components to the momentum |
| `Runs.SettledForever` | patch_medieval_ragdoll.py:60-63 | after settling no run changes a position, mass, the frame count, a log or the flag |
| `Runs.FramesCountSteps` | patch_medieval_ragdoll.py:60-63 | until it settles the ragdoll has counted every step; a settled one has counted at least 36 |
| `Runs.SettlingMoment` | patch_medieval_ragdoll.py:60-104 | a settled run has one step that settled it, and everything since amounts to one impulse on that step's result |
| `Runs.EventLogs` | patch_medieval_ragdoll.py:63-82 | an executed step appends to both logs exactly the joints that reach the floor faster than 1.0, in joint order, with the place integration gives them and their speed; impulses and settled steps append nothing |
| `Runs.RunLogs` | patch_medieval_ragdoll.py:33-82 | on every run, what each event appends is that report on the joints it found, and it stays in the logs of every later state |
| `Runs.RunKeepsLogs` | patch_medieval_ragdoll.py:33-82 | on every run the trail is the entry-by-entry projection of the drip sites, both only grow at the end, every speed exceeds 1.0, and there are at most nine entries a frame |
| `Runs.CentreHeldIff` | patch_medieval_ragdoll.py:17-101 | from a fresh ragdoll the centre of mass stays on or above a bound on all runs with floors within it if and only if the standing pose is: 82.5 yBase - 432.5 <= 82.5 bound |
| `Runs.RunKeepsCentre` | patch_medieval_ragdoll.py:36-101 | from any state, a centre of mass on or above a bound stays there on every run with floors within the bound |
| `Runs.StandingBody` | patch_medieval_ragdoll.py:12-29 | the standing pose is still, no joint is below its base, its masses are those of the joint table, and its centre of mass is on the base's vertical |
| `Runs.RunKeepsLimbsExact` | patch_medieval_ragdoll.py:13-101 | in every state reached by at least one executed step, whatever impulses came before or since, both shins and the left brace are exact or their joints coincide |
| `Poses.SettlesIff` | patch_medieval_ragdoll.py:68-104 | a step settles the ragdoll if and only if 35 steps were counted and every joint reads as still, said in terms of the state before the step |
| `Poses.RestingTorsoStaysAwake` | patch_medieval_ragdoll.py:65-104 | under gravity above 0.04, no step settles a ragdoll whose neck, shoulder and hips are within half a unit of their rest lengths and not rising |
| `Poses.FlatForever` | patch_medieval_ragdoll.py:36-104 | a body lying on the floor line stays on it through every run of steps with that floor, horizontal impulses and downward blows |
| `Settling.PressedSettles` | patch_medieval_ragdoll.py:36-104 | a body on or below the floor line and not rising, stepped with friction factor zero through any sideways impulses and downward blows, is flat after its first step and settles exactly when its frame count reaches 36, or, if 35 or more frames were already counted, on its first step when every joint was shallow enough to rebound by at most 0.04 and on its second otherwise |
| `Settling.FreshSettles` | patch_medieval_ragdoll.py:17-104 | a fresh ragdoll on a floor no lower than its head, stepped in that way, is settled if and only if it has been given 36 steps |
| `Settling.SettledIsFlat` | patch_medieval_ragdoll.py:60-104 | if a step under gravity above 0.04 settles a ragdoll with no joint rising, every joint is on the floor line after it and after every later run, and neck, shoulder and hips are not all at rest length |
| `Settling.StandingStaysAwake` | patch_medieval_ragdoll.py:17-104 | under gravity above 0.04 no step settles a ragdoll in the standing pose, whatever its facing and frame count and wherever the floor |
| `Settling.KeptAwake` | patch_medieval_ragdoll.py:36-104 | for any unsettled ragdoll and any sequence of floors, gravities and nonzero frictions there are sideways impulses, one before each step, that keep it from settling throughout |
| `StuckPose.StuckUnderSolver` | patch_medieval_ragdoll.py:87-101 | a concrete flat pose is returned unchanged by any number of passes; exactly constraints 0, 6, 7 and 9 are satisfied, and neck and right shoulder are less than 1.2 apart |
| `StuckPose.StuckSettles` | patch_medieval_ragdoll.py:60-104 | that pose, anywhere, is an equilibrium at every friction and every gravity that is not negative: no step moves a joint, and it settles on the first step whose frame count allows it |

## Left out

- Floating point: rounding, overflow and NaN; every claim is about exact real arithmetic.
- `math.hypot`: a function argument known only by its defining equation.
- The script around the class: reading and writing the target file, the regular expression and the printed messages.
- Whether all ten constraints hold after a step: the code does not achieve it; the three that a step does leave exact are proved.
- Which runs with ordinary friction settle: the settled states, runs that settle and runs kept awake are characterised, not the long-term motion of a body left alone.
- Bodies that several passes together, but not one, carry back to their start: FixedPassIff speaks of one pass.
- Callers of the ragdoll: the fight loop and the rendering that read its joints and logs.
- The rest of the repository: parsers, runtimes, kernel and tools share no code with the ragdoll.
