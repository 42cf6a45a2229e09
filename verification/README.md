# Dynamics, planning and geometry of OpenHRP3, modelled in Dafny

This project models the parts of OpenHRP3 whose correctness is hardest to see from one function body, and
proves what they are for. Arithmetic is over exact reals. Code that changes state is modelled by classes and
methods that change state, each proved against a function or predicate of the inputs or the old state; the
lemmas say what that function or predicate means.

## What is proved

**Articulated bodies and contacts.** Links, numbered in the order of the link traversal, form a tree
(`LinkTree`), which phase 1 of the forward dynamics makes out of the links (`FirstPhase`, `LinkParts`). The
inbound and outbound passes (`ForwardDynamics`) compute exactly the motion of the body (`Dynamics.AbmIsMotion`,
`MotionUnique`), the one-pass and the two-part inbound pass agree (`LinkTree.SplitAgrees`), and on a physical
tree no pass divides by zero (`Dynamics.InertiaPositive`, `RigidBody`). What a link takes is mass times the
acceleration of its centre and the rate of its spin (`RigidMotion`), summed over the links below a joint by
`TreeSums` and `NewtonEuler`. By the virtual work of any displacement that the joints allow (`VirtualWork`),
responses are reciprocal and never against a force; so the contact matrix is symmetric and positive
(`ContactWork`), and so is the mass matrix (`MassSymmetry`). The contact solver climbs a test force
up the tree instead of recomputing the body (`Response`, `TestForce`), skips links by marks (`SkipMarks`),
measures the contact matrix (`ConstraintForceSolver`), and applies a solution to the links (`ConstraintForces`): `ContactStep.Step` says that for every force vector the
accelerations found in the links afterwards are default plus matrix times forces, and `ContactFlags` for which
link pairs that is so. `ContactPoints` numbers the constraints, `GaussSeidel` is the projected sweep in place,
`ContactProblem.FixedPoint` says a sweep changes nothing exactly when the laws of contact hold, `ContactSolve`
joins measuring, solving and applying, and `ContactSolver.Solve` is the whole call, collisions to accelerations.

**Mass matrix.** `InverseDynamics` is the recursion over child and sibling pointers, `Body.CalcMassMatrix` the
unit vector method with the body as its working place, `MassMatrix` why the result times any acceleration is
the inverse dynamics, `MotionEquation` that the forward dynamics solves the equation of the mass matrix where
both see the same axes, and `MotionAxes.MassEquationExact`, by the power argument of `MotionPower`, that this
is so exactly for bodies without slide joints.

**Traversal.** `TraverseOrder` and `LinkTraverse` give the order of a visit from any link, `ForwardKinematics`
evaluates poses, velocities and accelerations along it upward and downward, with the rotations of `Rodrigues`, `LinkEdit` edits the child lists.

**Planning.** `Mobility` samples motions and checks them in strides, `Paths` joins and shortcuts way points,
`Roadmap` searches, `RRT` and `PRM` plan, `TreeGrowth` says by value what the trees of `RRT` become,
`PathPlanner` wraps, `OmniWheel` shows the laws the planners rely on and where one of them fails, with the
shortest turns of `Turning`.

**Geometry.** `Clipping` and `Triangulator` cut polygons up, `FaceSetTriangles` and `TriangleMeshShaper` carry
colours, normals and texture coordinates along, `Surface`, `RingMesh` and `PrimitiveMeshes` close cones,
cylinders and spheres and count their edges, `SSVTreeCollider` searches two box trees, `ColdetModel` counts
their boxes.

**Scene text.** `VrmlText` is the text of a scene tree as tokens, `VrmlWriter` writes it, `VrmlParser` reads it,
`VrmlRoundTrip` says the tree comes back.

## How to read the model

- Functions that the proofs only use through a law are parameters with that law as a precondition: the 6x6
  solve returns a solution if the system is invertible (`Dynamics.Solves`), sqrt squares back, vector
  normalization rescales, joints keep attitudes rotations (`ForwardKinematics.AllRotate`, proved of the rotation
  formula by `UnitAxesRotate`), interpolation approaches its target (`TreeGrowth.Approaches`, proved of
  `OmniWheel`), sine and cosine obey their addition laws, the volume distance is a lower bound
  (`SSVTreeCollider.LowerBound`). Collision of a configuration, the flatness test of an ear, the primitive
  distance and the extra connection check are arbitrary. Random draws are an arbitrary sequence.
- A ghost parameter such as a tree `t`, the forces `f` or the list of directions `dirs` names the value that a
  heap structure represents. It carries no data at run time.
- `WellFormed` and `Complete` say that the pointers form one tree numbered in traversal order, `Regular` that no
  divisor is zero, `Solvable` that the system of a free root is positive as well, `Physical` that the link
  inertias are positive and the axes not zero, from which the others follow.
- Friction: the solver's settings as compiled (static friction by two constraints, true friction cone,
  redundant accelerations skipped, matrix not assumed symmetric) are the branches that are modelled.

## Where the source does not do what one would expect

- `hrplib/hrpPlanner/RRT.cpp:141-151` follows a null pointer when both trees grow, the search fails and the tree
  from the goal still has only its root. `RRT.RRT.CalcPath` states exactly when, and that success excludes it;
  where nothing can reach the goal, it always happens (`TreeGrowth.UnreachableGoal`).
- `hrplib/hrpUtil/Triangulator.cpp:100` divides the cross product by the length of one side and adds the length of
  the other, where dividing by their sum would measure how flat an ear is. An ear whose corners lie on a line is so
  taken for concave and never clipped, unless its neighbours are less than 0.0001 apart (`Triangulator.FlatIsShort`).
- `hrplib/hrpUtil/TriangleMeshShaper.cpp:297-322` keeps a position map that is short by the indices out of range
  passed over earlier in the face (`FaceSetTriangles.CornerMeaning`, `SkippingShifts`), and drops a last face that
  is not closed by -1 (`OpenFaceDropped`). The result of `remapDirectMapObjectsPerFaces` is not looked at: with
  fewer values than faces the conversion succeeds, and from the first face without one on the triangles keep what
  resizing left them (`TMSImpl.DirectlyRemapped`).
- `hrplib/hrpModel/ConstraintForceSolver.cpp:442` never sets the same-body flag of an extra joint, even when both
  its links belong to one body. Side 0 of a test is then undone before side 1 is pushed (`:1224-1240`), and the
  matrix lacks what side 0 does: `ContactFlags.FlagDecides` gives the exact condition, `WrongFlagMisses` a body.
  A body's own closed loops of the types EJ_XYZ and EJ_Z do not get that far: `:539-549` use a pair that was
  never made.
- `hrplib/hrpModel/Body.cpp:444-450` lets every joint that is not fixed turn about `a`. The model loader gives a
  slide joint no such axis (`hrplib/hrpModel/ModelLoaderUtil.cpp:254-262`), so its row of the mass matrix holds its
  rotor and nothing else, while the forward dynamics slides it along `d`
  (`hrplib/hrpModel/ForwardDynamicsABM.cpp:241-247`). `MotionAxes.MassEquationExact`: the equation of the mass matrix
  holds for all motions of a body exactly if no joint slides. Computing the matrix also leaves these axes, and
  the velocities without the sliding, in the links (`Body.Body.CalcMassMatrix`).
- A friction residual at a fixed point of the sweep is against its force only after weighting both rows with their
  own diagonal entries. `ContactProblem.FrictionOpposes` says exactly when it is against the force as a vector,
  `FrictionAside` gives a fixed point where it is not.
- `hrplib/hrpPlanner/OmniWheel.cpp:25-30` turns forward for half a turn in both directions, so the edge that
  `hrplib/hrpPlanner/Roadmap.cpp:112-124` adds backwards without a check may collide
  (`OmniWheel.SamplesReverse`, `ReachableBackExact`, `HalfTurnOneWay`).
- `hrplib/hrpModel/LinkTraverse.cpp:101-102` goes up a turning joint with the spin of the child in the linear
  acceleration, where `:162-163` goes down with that of the parent (`ForwardKinematics.RatesUpThenDown`,
  `AlwaysSteady`); and over slide and fixed joints (`:115`, `:132`, `:176`, `:193`) the linear velocity
  leaves the swing of the arm out, over fixed joints (`:136`, `:197`) the linear acceleration as well, which the
  forward dynamics does not (`FirstPhase.RatesAgree`).

## Model

| member | source | states |
|---|---|---|
| ForwardDynamics.ForwardDynamicsABM.CalcABMPhase2 | hrplib/hrpModel/ForwardDynamicsABM.cpp:305-355 | the one-pass inbound loop leaves in every link the articulated inertia and bias force of its subtree, and hh, dd, uu of every moving joint |
| ForwardDynamics.ForwardDynamicsABM.Phase2Link | hrplib/hrpModel/ForwardDynamicsABM.cpp:310-352 | one round of that loop: children absorbed in place by their rank-one terms, other links untouched |
| ForwardDynamics.ForwardDynamicsABM.CalcABMPhase2Part1 | hrplib/hrpModel/ForwardDynamicsABM.cpp:358-394 | the first half of the split pass leaves the same inertias, and bias forces without external forces |
| ForwardDynamics.ForwardDynamicsABM.Part1Link | hrplib/hrpModel/ForwardDynamicsABM.cpp:363-392 | one round of the first half |
| ForwardDynamics.ForwardDynamicsABM.CalcABMPhase2Part2 | hrplib/hrpModel/ForwardDynamicsABM.cpp:397-424 | the second half adds the external forces: bias forces and uu are those of the one-pass loop |
| ForwardDynamics.ForwardDynamicsABM.Part2Link | hrplib/hrpModel/ForwardDynamicsABM.cpp:402-422 | one round of the second half |
| LinkTree.SplitAgrees | hrplib/hrpModel/ForwardDynamicsABM.cpp:358-424 | for every tree and every external forces, the two-part pass and the one-pass loop reach the same bias force and uu at every link |
| ForwardDynamics.ForwardDynamicsABM.CalcABMPhase3 | hrplib/hrpModel/ForwardDynamicsABM.cpp:427-470 | the outbound loop leaves link and joint accelerations that are a motion of the body under its forces |
| ForwardDynamics.ForwardDynamicsABM.Phase3Link | hrplib/hrpModel/ForwardDynamicsABM.cpp:452-469 | one round of the outbound loop: a link accelerates with its parent, its joint as uu and hh say |
| ForwardDynamics.ForwardDynamicsABM.CalcABMLastHalf | hrplib/hrpModel/ForwardDynamicsABM.cpp:61-66 | second half of the inbound pass and outbound pass: the links end with the one motion the forces allow |
| Dynamics.AbmIsMotion | hrplib/hrpModel/ForwardDynamicsABM.cpp:305-470 | accelerations are what the recursion of the passes computes if and only if they are a motion: consistent along the tree, balanced at every moving joint (axis component of the subtree force plus rotor equals torque), and without net force on a free root |
| Dynamics.JointLaw | hrplib/hrpModel/ForwardDynamicsABM.cpp:340-352 | for one joint: its acceleration is the computed one if and only if Newton-Euler holds at it |
| Dynamics.ForceIsArticulated | hrplib/hrpModel/ForwardDynamicsABM.cpp:310-340 | the force on a whole subtree is the articulated inertia times the acceleration of its top link, plus the bias force |
| Dynamics.InertiaPositive | hrplib/hrpModel/ForwardDynamicsABM.cpp:316-353 | with positive link inertias and non-zero axes every articulated inertia is symmetric and positive definite, and every divisor dd of a moving joint is strictly positive |
| Dynamics.DowndateEnergy | hrplib/hrpModel/ForwardDynamicsABM.cpp:326-330 | with a positive inertia and a non-zero axis the divisor is positive, and the downdated quadratic form is non-negative everywhere |
| Dynamics.PhysicalIsRegular | hrplib/hrpModel/ForwardDynamicsABM.cpp:326-352 | on every physical tree no joint divides by zero |
| Dynamics.StaticIsSolvable | hrplib/hrpModel/ForwardDynamicsABM.cpp:427-470 | a body with a fixed root and no moving joint needs no positive inertia for that: a massless floor will do |
| Dynamics.SolutionUnique | hrplib/hrpModel/ForwardDynamicsABM.cpp:427-470 | a positive inertia maps no two accelerations to the same force: the root solve has one solution |
| Dynamics.MotionUnique | hrplib/hrpModel/ForwardDynamicsABM.cpp:427-470 | two motions of a body under the same forces are equal, wherever no divisor is zero and the system of a free root is positive |
| Dynamics.AccIsMotion | hrplib/hrpModel/ForwardDynamicsABM.cpp:427-470 | the accelerations as a function of the forces are a motion, for every such tree and every forces |
| RigidBody.OwnInertiaPositive | hrplib/hrpModel/ForwardDynamicsABM.cpp:271-287 | the spatial inertia phase 1 gives a link of positive mass and positive tensor is symmetric and positive definite, wherever its centre is |
| RigidBody.OwnEnergy | hrplib/hrpModel/ForwardDynamicsABM.cpp:271-287 | its quadratic form is mass times the squared acceleration of the centre of mass, plus the spin term |
| FirstPhase.CalcABMPhase1 | hrplib/hrpModel/ForwardDynamicsABM.cpp:221-302 | phase 1 in place: every link is placed on its parent, and the links make the tree of the forward dynamics: axis by joint type from a or d, velocity and velocity product from the parent, own inertia, bias force with gravity; the velocity at its own origin and its centre of mass as well |
| FirstPhase.MoveOnParent | hrplib/hrpModel/ForwardDynamicsABM.cpp:230-267 | the part of one joint: pose on the parent, axis by joint type, velocity, velocity product; nothing for a fixed joint |
| FirstPhase.WeighLink | hrplib/hrpModel/ForwardDynamicsABM.cpp:270-300 | the part of one link: velocity at its origin, centre of mass, inertia about the world origin; and for every acceleration, inertia times acceleration plus bias force is mass times the acceleration of the centre and the weight, there, and the rate of the spin |
| RigidMotion.MomentumIs | hrplib/hrpModel/ForwardDynamicsABM.cpp:290-294 | P and L, computed from mass, centre and tensor, are the spatial inertia times the velocity |
| RigidMotion.OwnTimes | hrplib/hrpModel/ForwardDynamicsABM.cpp:271-294 | the spatial inertia times a velocity is mass times the velocity of the centre, its moment about the origin, and the tensor of the link turned into the world times the spin |
| RigidMotion.SpinInLink | hrplib/hrpModel/ForwardDynamicsABM.cpp:271 | seen from the link, the tensor turned into the world is the tensor of the link |
| RigidMotion.SpinRateIs | hrplib/hrpModel/ForwardDynamicsABM.cpp:297 | the rate of the spin is what the product rule gives for an attitude that turns with the link |
| RigidMotion.NewtonEulerHolds | hrplib/hrpModel/ForwardDynamicsABM.cpp:290-297 | for every mass, centre, attitude, tensor, velocity and acceleration: inertia times acceleration plus the velocity wrench is mass times the acceleration of the centre, there, and the rate of the spin |
| RigidMotion.TurningCarries | hrplib/hrpModel/ForwardDynamicsABM.cpp:231-264 | a joint that turns about an axis leaves the material point on it with its parent, in velocity and acceleration |
| RigidMotion.SlidingCarries | hrplib/hrpModel/ForwardDynamicsABM.cpp:240-264 | a joint that slides moves it along the axis, with the Coriolis term |
| LinkParts.CentreInLink | hrplib/hrpModel/ForwardDynamicsABM.cpp:271 | seen from the link, the centre of mass stays where it is |
| NewtonEuler.MotionTakes | hrplib/hrpModel/ForwardDynamicsABM.cpp:427-470 | in every motion of a body that phase 1 has made: over every moving joint, torque less rotor is what the links below take along its axis, each once; on a free body all links together take just the external forces |
| TreeSums.TreeSumIs | hrplib/hrpModel/LinkTraverse.cpp:59-76 | a sum along child and sibling pointers of a complete tree counts every link below once |
| Response.ClimbStart | hrplib/hrpModel/ConstraintForceSolver.cpp:1320-1336 | an external force on a link changes the bias force of that link by its negative, where the climb starts |
| Response.ClimbStep | hrplib/hrpModel/ConstraintForceSolver.cpp:1320-1343 | if the climb has the right bias force change at a link, it gives the right uu there and the right bias force change at the parent: those of a full recomputation |
| Response.Unaffected | hrplib/hrpModel/ConstraintForceSolver.cpp:1320-1343 | links that are not on the way from the pushed link to the root keep their bias force and uu |
| Response.MotionBlends | hrplib/hrpModel/ConstraintForceSolver.cpp:1250-1275 | motions superpose: the motion under f + x (f1 - f0) is a + x (a1 - a0) |
| Response.AccBlends | hrplib/hrpModel/ConstraintForceSolver.cpp:1250-1275 | so do the computed accelerations, for every tree on which the passes can be carried out |
| VirtualWork.WorkOfAll | hrplib/hrpModel/ForwardDynamicsABM.cpp:427-470 | along any displacement that the joints allow, the net force on the body works what its links take, less what is given from outside, less what the joints work |
| VirtualWork.Reciprocal | hrplib/hrpModel/ForwardDynamicsABM.cpp:427-470 | forces u work along the response of a body to forces v what v work along its response to u |
| VirtualWork.GivesWay | hrplib/hrpModel/ForwardDynamicsABM.cpp:427-470 | a physical body never responds against a force, and stands still only where the force does no work |
| TestForce.InitABMForceElementsWithNoExtForce | hrplib/hrpModel/ConstraintForceSolver.cpp:1280-1317 | the records hold uu, pf and accelerations under the external forces alone, for every link |
| TestForce.CalcABMForceElementsWithTestForce | hrplib/hrpModel/ConstraintForceSolver.cpp:1320-1343 | after the climb the records hold uu and root bias force of the body under the test force as well, and only uu and the root term changed |
| TestForce.CalcAccelsABM | hrplib/hrpModel/ConstraintForceSolver.cpp:1346-1402 | the outbound sweep gives the root and every marked link the acceleration under the test force, and restores every uu and the root term |
| TestForce.AccelLinks | hrplib/hrpModel/ConstraintForceSolver.cpp:1373-1399 | its loop, link by link, skipping the links that are not marked |
| SkipMarks.MarkWay | hrplib/hrpModel/ConstraintForceSolver.cpp:1124-1139 | climbing from a constrained link until a mark is met marks exactly the link and its ancestors, besides what was marked |
| SkipMarks.MarkReachesUp | hrplib/hrpModel/ConstraintForceSolver.cpp:1110-1141 | where marks are closed upward, every ancestor of a marked link is marked: no skipped link is an ancestor of a constrained one |
| ConstraintForceSolver.CFSImpl.SetAccelCalcSkipInformation | hrplib/hrpModel/ConstraintForceSolver.cpp:1110-1141 | a link of a constrained body is marked if and only if it is a constrained link or an ancestor of one, for every list of link pairs; nothing but the marks changes |
| ConstraintForceSolver.CFSImpl.ApplyTestForce | hrplib/hrpModel/ConstraintForceSolver.cpp:1218-1242 | a unit test force on both sides of a pair leaves in the bodies what the test is to measure: both sides together, or side 1 alone where an unflagged pair on one body has its side 0 undone in between; every body is then as before |
| ConstraintForceSolver.CFSImpl.TestSide | hrplib/hrpModel/ConstraintForceSolver.cpp:1224-1240 | one side of it: accelerations are taken unless the pair is flagged and side 1 is still to come |
| ConstraintForceSolver.CFSImpl.ExtractRelAccelsOfConstraintPoints | hrplib/hrpModel/ConstraintForceSolver.cpp:1437-1464 | the column read off the constraint points is, row by row, how the relative acceleration differs from the default |
| ConstraintForceSolver.CFSImpl.ExtractRelAccelsFromLinkPair | hrplib/hrpModel/ConstraintForceSolver.cpp:1467-1560 | by whichever of the three cases: exactly the rows of the pair get how their relative acceleration differs from the default |
| ConstraintForceSolver.CFSImpl.ExtractFromPoint | hrplib/hrpModel/ConstraintForceSolver.cpp:1472-1500 | normal row and friction rows of one point |
| ConstraintForceSolver.CFSImpl.TestPoint | hrplib/hrpModel/ConstraintForceSolver.cpp:1211-1270 | one point: a column for its normal and one for each friction direction |
| ConstraintForceSolver.CFSImpl.SetAccelerationMatrix | hrplib/hrpModel/ConstraintForceSolver.cpp:1197-1277 | for every list of pairs, flags right or not: every entry is what the test of the column direction reads along the row direction, and every body is as before |
| ContactResponse.CouplingIsReadOrMissed | hrplib/hrpModel/ConstraintForceSolver.cpp:1218-1242 | the response to a unit force is what a test reads plus what it misses: the effect of side 0, for an unflagged pair on one body |
| ContactResponse.ReadingExact | hrplib/hrpModel/ConstraintForceSolver.cpp:1218-1242 | an entry is the response if and only if both sides were tested together, or side 0 alone leaves the row as it is |
| ContactFlags.FlagDecides | hrplib/hrpModel/ConstraintForceSolver.cpp:1224-1240 | a pair with a given flag is measured exactly in every scene, under all forces and along all directions, if and only if the flag says whether both links are on one body |
| ContactFlags.WrongFlagMisses | hrplib/hrpModel/ConstraintForceSolver.cpp:442 | a body on which it goes wrong: a cart on a rail tied to its own base by an extra joint has response 1, and the matrix entry is 0 |
| ContactFlags.RegisteredFlags | hrplib/hrpModel/ConstraintForceSolver.cpp:415-522 | of the three ways to register a pair only an extra joint within one body leaves the flag wrong; a set flag always means one body |
| ConstraintForceSolver.CFSImpl.SetDefaultAccelerationVector | hrplib/hrpModel/ConstraintForceSolver.cpp:1144-1194 | an0, at0 and the default accelerations are the relative accelerations under the external forces alone |
| ContactResponse.RelAccelMoves | hrplib/hrpModel/ConstraintForceSolver.cpp:1203-1275 | a force x along one direction moves the relative acceleration along another by x times their coupling |
| ContactResponse.ResponseExact | hrplib/hrpModel/ConstraintForceSolver.cpp:1197-1277 | for every force vector x, the relative acceleration under all the forces x is the default plus matrix row times x |
| ContactWork.PointWork | hrplib/hrpModel/ConstraintForceSolver.cpp:1487-1490 | a force at a point works along the acceleration of the material point there what its wrench works along that of the link |
| ContactWork.CouplingSymmetric | hrplib/hrpModel/ConstraintForceSolver.cpp:1197-1277 | the response along one direction to a force along another is the same both ways, for any two directions between any links |
| ContactWork.ReadingSymmetric | hrplib/hrpModel/ConstraintForceSolver.cpp:1197-1277 | so are the readings of directions tested on both sides at once |
| ContactWork.ResponsePositive | hrplib/hrpModel/ConstraintForceSolver.cpp:1197-1277 | for every force vector x, x times the response matrix times x is not negative, and zero only if no relative acceleration anywhere changes |
| ContactWork.CouplingPositive | hrplib/hrpModel/ConstraintForceSolver.cpp:1197-1277 | no direction responds against its own force |
| ConstraintForces.AddConstraintForceToLink | hrplib/hrpModel/ConstraintForceSolver.cpp:1699-1732 | one side of a pair gets the wrench of all normal and friction forces of its points |
| ConstraintForces.AddConstraintForceToLinks | hrplib/hrpModel/ConstraintForceSolver.cpp:1685-1696 | the links end with exactly the forces x along all constraint directions |
| ContactStep.Step | hrplib/hrpModel/ConstraintForceSolver.cpp:690-725 | end to end, for every x and any flags: matrix and defaults are what the tests read, every body accelerates as its forces and the forces x make it, and the relative accelerations in the links are default plus matrix times x plus what the tests missed of x; nothing is missed where all flags are right |
| ContactStep.RowsAgree | hrplib/hrpModel/ConstraintForceSolver.cpp:1950-1960 | a matrix row times x, plus what the tests missed, is the response to x wherever the row was measured or x is zero |
| ContactStep.FlagsMakeWhole | hrplib/hrpModel/ConstraintForceSolver.cpp:1224-1240 | where the flags of all pairs are right, every direction is tested on both sides at once |
| ContactPoints.SetContactConstraintPoints | hrplib/hrpModel/ConstraintForceSolver.cpp:832-940 | greedy culling: kept contacts are pairwise at least the threshold apart, every other is near one kept before it; kept contacts are numbered on, each with two tangent friction directions |
| ContactPoints.SetFrictionVectors | hrplib/hrpModel/ConstraintForceSolver.cpp:944-983 | both friction directions are tangent and orthogonal to each other, and for a non-zero normal neither is zero: crossing with the axis of the smallest component never degenerates |
| ContactPoints.SetExtraJointConstraintPoints | hrplib/hrpModel/ConstraintForceSolver.cpp:986-1029 | closed-loop points: one for each axis, numbered on, without friction |
| ContactPoints.SetConstraintPoints | hrplib/hrpModel/ConstraintForceSolver.cpp:745-829 | constrained are exactly the pairs with collisions, in order, each with its culled contacts, then every extra joint with its axis points; normals and frictions are numbered without gaps in the order the rest of the solver reads, and rows n + 2t and n + 2t + 1 belong to contact t, across its normal |
| ContactPoints.InOrderIsNumbered | hrplib/hrpModel/ConstraintForceSolver.cpp:745-829 | slots that follow each other give the numbering the matrix and the force application assume |
| GaussSeidel.RowValue | hrplib/hrpModel/ConstraintForceSolver.cpp:1944-1954 | the inner sum gives the value that makes the row hold, or zero for a cleared row |
| GaussSeidel.SweepContacts | hrplib/hrpModel/ConstraintForceSolver.cpp:1942-1961 | first loop: contacts in order, clamped at zero, with their friction limits |
| GaussSeidel.SweepJoints | hrplib/hrpModel/ConstraintForceSolver.cpp:1963-1976 | second loop: joint rows in order |
| GaussSeidel.SweepFrictions | hrplib/hrpModel/ConstraintForceSolver.cpp:1979-2021 | third loop: each friction pair from the old pair, then cut back to its contact's cone |
| GaussSeidel.Sweep | hrplib/hrpModel/ConstraintForceSolver.cpp:1936-2052 | a whole sweep in place: each component is computed from the new ones before it and the old ones after it |
| ContactProblem.SweepAdmissible | hrplib/hrpModel/ConstraintForceSolver.cpp:1936-2052 | whatever it starts from, a sweep ends with non-negative contact forces, every friction pair inside its own contact's cone, and zero on cleared rows |
| ContactProblem.CoulombCone | hrplib/hrpModel/ConstraintForceSolver.cpp:1988-2019 | the cone of a contact: the square of the friction at most that of coefficient times normal force |
| ContactProblem.FixedPoint | hrplib/hrpModel/ConstraintForceSolver.cpp:1936-2052 | a sweep leaves x unchanged if and only if x obeys the laws of contact: complementarity, zero residual on joint rows, and friction unsaturated with zero residual or on the cone with a residual against it, at one common rate weighted by the diagonal |
| ContactProblem.FrictionDissipates | hrplib/hrpModel/ConstraintForceSolver.cpp:2008-2019 | under those laws no friction force has the sign of its residual |
| ContactProblem.FrictionOpposes | hrplib/hrpModel/ConstraintForceSolver.cpp:1979-2021 | on uncleared rows with a friction limit, the residual pair is a non-positive multiple of the friction pair if and only if the two diagonal entries are equal, or one friction component is zero, or there is no residual |
| ContactProblem.FrictionAside | hrplib/hrpModel/ConstraintForceSolver.cpp:1979-2021 | a fixed point of the sweep with diagonal entries 1 and 2 at which the residual is not against the friction |
| ContactProblem.LawsAgree | hrplib/hrpModel/ConstraintForceSolver.cpp:1602-1607 | the residuals of cleared rows do not matter to the laws |
| GaussSeidelLoops.Sweeps | hrplib/hrpModel/ConstraintForceSolver.cpp:1940-1941 | numIteration sweeps, one after the other |
| GaussSeidelLoops.SolveMCPByProjectedGaussSeidel | hrplib/hrpModel/ConstraintForceSolver.cpp:1742-1786 | blocks of nine sweeps and one, at least one block; the loop stops before its last block exactly at the first block whose last sweep moves x by less than the bound |
| GaussSeidelLoops.MovedLittle | hrplib/hrpModel/ConstraintForceSolver.cpp:1760-1768 | the loop stops where the last sweep moves x by less than the bound times its length, or the bound alone if that is short |
| ContactSolve.ClearSingularPointConstraints | hrplib/hrpModel/ConstraintForceSolver.cpp:1600-1610 | columns with a small diagonal are zeroed and marked, all others kept, and the diagonal ends positive |
| ContactSolve.Prepare | hrplib/hrpModel/ConstraintForceSolver.cpp:694-702 | the matrix is, entry by entry, what the tests read, with a column cleared and its diagonal marked exactly where the diagonal reading is below the bound; the constant vector is that of the default accelerations |
| ContactSolve.ClearedExactly | hrplib/hrpModel/ConstraintForceSolver.cpp:1600-1610 | a row of that matrix is cleared exactly where the reading of its direction along itself is below the bound, or is the mark itself |
| ContactSolve.SolverSymmetric | hrplib/hrpModel/ConstraintForceSolver.cpp:1197-1277 | between directions tested on both sides at once, the columns in play are symmetric |
| ContactSolve.SolveForces | hrplib/hrpModel/ConstraintForceSolver.cpp:690-718 | from that matrix and vector the forces are the last of a run of sweeps from the start vector that stops where the block loop does; they are admissible, zero on cleared rows, and if the last sweep changed nothing they obey the laws with residuals M x + b |
| ContactSolve.FinalIsResidual | hrplib/hrpModel/ConstraintForceSolver.cpp:690-725 | on rows that are not cleared, the residual is the relative acceleration the links really end up with, less what the tests missed |
| ContactSolve.SolveContacts | hrplib/hrpModel/ConstraintForceSolver.cpp:646-732 | the measured step: the forces are the last of a run of sweeps over the measured matrix, every body accelerates under exactly these forces; they are admissible and zero on singular rows; if the last sweep changed nothing, they obey the laws of contact with the accelerations the solver believes in, which are those found in the links afterwards where all flags are right |
| ContactSolver.Solve | hrplib/hrpModel/ConstraintForceSolver.cpp:646-741 | the whole call, from collision points and closed loops to accelerations: constraints exactly those of the collisions and joints, matrix as measured, forces by sweeps from the previous ones, accelerations under these forces; the forces are admissible and zero on singular rows, and at a fixed point they obey the laws of contact with the accelerations found in the links |
| ContactSolver.SetUp | hrplib/hrpModel/ConstraintForceSolver.cpp:651-688 | constraints exactly those of the collisions and joints, numbered, exactly the bodies they touch flagged, matrices made to fit: all that the measuring relies on |
| ContactSolver.FlagBodies | hrplib/hrpModel/ConstraintForceSolver.cpp:651-652 | after the reset a body has constrained links if and only if a constrained pair has a link of it |
| InverseDynamics.CalcInverseDynamics | hrplib/hrpModel/Body.cpp:439-496 | the recursion over child and sibling pointers returns the force on the link and its later siblings, and leaves in every link reached its axis, velocity, acceleration and joint torque, writing no other |
| InverseDynamics.MoveLink | hrplib/hrpModel/Body.cpp:442-465 | axis from the turning axis a whatever the joint type, velocity, and acceleration of a link from those of its parent |
| InverseDynamics.StartLink | hrplib/hrpModel/Body.cpp:466-477 | the force on one link alone is mass times the acceleration of its centre, there, and the rate of its spin |
| InverseDynamics.CalcSubtree | hrplib/hrpModel/Body.cpp:439-487 | the part for one link and its children |
| InverseDynamics.SolveAll | hrplib/hrpModel/Body.cpp:421 | from the root of a complete tree: every link's axis, velocity and acceleration; every torque is what the links below take along the joint's axis, each once, and the total force what all links take |
| InverseDynamics.InverseTakes | hrplib/hrpModel/Body.cpp:466-495 | for all accelerations of root and joints: torques and total force as sums of mass times acceleration of the centre and rate of spin over the links below |
| InverseDynamics.ReachAll | hrplib/hrpModel/Body.cpp:475-495 | child and sibling pointers reach every link |
| MassMatrix.RowBlends | hrplib/hrpModel/Body.cpp:439-496 | the map from generalized acceleration to force, moment and torques is affine |
| MassMatrix.MassMatrixIsInverseDynamics | hrplib/hrpModel/Body.cpp:328-413 | for every acceleration v: matrix times v plus constant term is the inverse dynamics of v plus the rotor torques |
| Body.Body.SetColumnOfMassMatrix | hrplib/hrpModel/Body.cpp:416-433 | one column: total force, moment about the root, joint torques, for the state the body is in |
| Body.Body.LinearColumn | hrplib/hrpModel/Body.cpp:374-379 | columns of the root translations, the state undone afterwards |
| Body.Body.AngularColumn | hrplib/hrpModel/Body.cpp:380-388 | columns of the root rotations with the spatial acceleration they cause, undone afterwards |
| Body.Body.JointColumn | hrplib/hrpModel/Body.cpp:391-398 | columns of the joints with the rotor on the diagonal, undone afterwards |
| Body.Body.CalcMassMatrix | hrplib/hrpModel/Body.cpp:338-413 | every entry is the unit response less the constant term, plus the rotor on the diagonal; joint accelerations, joint torques and the root acceleration are given back, while axes and velocities stay those of the inverse dynamics |
| MassSymmetry.RowIsKinetic | hrplib/hrpModel/Body.cpp:328-413 | a row for an acceleration, beyond the constant term, is what the link inertias take between the displacement of the row and that acceleration |
| MassSymmetry.EntrySymmetric | hrplib/hrpModel/Body.cpp:328-413 | the mass matrix is symmetric, whatever the joints |
| MassSymmetry.MassPositive | hrplib/hrpModel/Body.cpp:328-413 | on a physical body it is positive definite: v times the matrix times v is not negative, and zero only for v = 0 |
| MotionEquation.GravityLifts | hrplib/hrpModel/Body.cpp:363-370 | gravity as a force on every link and gravity as an acceleration of the root give the same subtree forces; external forces take their sum over the subtree off |
| MotionEquation.MotionSolvesMassEquation | hrplib/hrpModel/Body.cpp:344-349 | where both passes have the same axes: under all external forces and torques the motion solves mass matrix times acceleration plus constant term equals force, at every moving joint of any body and in the six rows of a free root |
| MotionAxes.MassEquationExact | hrplib/hrpModel/Body.cpp:328-413 | the equation holds for the motions under all torques and all external forces if and only if no joint of the body slides |
| MotionAxes.NoSlideLifts | hrplib/hrpModel/Body.cpp:439-465 | without slide joints the inverse dynamics sees the same axes, velocities, velocity products and inertias as phase 1 of the forward dynamics |
| MotionAxes.SlideRow | hrplib/hrpModel/Body.cpp:444-447 | the row of a slide joint in the mass matrix holds nothing but its rotor |
| MotionAxes.SlideDisobeys | hrplib/hrpModel/Body.cpp:444-447 | with a slide joint, some torques give a motion on which the equation fails |
| MotionAxes.RailDisobeys | hrplib/hrpModel/Body.cpp:444-447 | a free base with a block on a rail is such a body |
| MotionPower.TakesPower | hrplib/hrpModel/ForwardDynamicsABM.cpp:305-470 | between two motions over passive joints every subtree takes up power, unless its top link accelerates alike in both |
| MotionPower.NoPowerNoMotion | hrplib/hrpModel/ForwardDynamicsABM.cpp:305-470 | if no power goes in at the root, the two motions accelerate alike everywhere |
| LinkTraverse.LinkTraverse.Find | hrplib/hrpModel/LinkTraverse.cpp:51-56 | the visit from any link is the order defined by the pointers, with as many upward connections as the link is deep |
| LinkTraverse.LinkTraverse.Traverse | hrplib/hrpModel/LinkTraverse.cpp:59-76 | the recursion appends exactly that order |
| TraverseOrder.VisitsAll | hrplib/hrpModel/LinkTraverse.cpp:59-76 | upward and downward from any link, every link of the tree is visited exactly once |
| TraverseOrder.OrderLists | hrplib/hrpModel/LinkTraverse.cpp:59-76 | more generally: all links but those of the subtree it came from, once each |
| TraverseOrder.DownLists | hrplib/hrpModel/LinkTraverse.cpp:59-76 | downward only: exactly the links below, once each |
| TraverseOrder.OrderEvaluates | hrplib/hrpModel/LinkTraverse.cpp:59-76 | the visit climbs to the root parent by parent, and from there on every link comes after its parent |
| ForwardKinematics.UpThenDown | hrplib/hrpModel/LinkTraverse.cpp:91-129 | the upward step of a pose is the inverse of the downward step |
| ForwardKinematics.PointOnParent | hrplib/hrpModel/LinkTraverse.cpp:152-154 | a point of a link is placed by its joint and then by the parent |
| ForwardKinematics.JointMovesOn | hrplib/hrpModel/LinkTraverse.cpp:152-171 | a joint that moves on by e turns its link on by e about the axis, or slides it on by e |
| ForwardKinematics.AxisShared | hrplib/hrpModel/LinkTraverse.cpp:152 | parent and link see the axis of a turning joint alike |
| ForwardKinematics.OnParentRotates | hrplib/hrpModel/LinkTraverse.cpp:151-153 | the attitude put on a rotated parent is a rotation |
| ForwardKinematics.UnitAxesRotate | hrplib/hrpModel/LinkTraverse.cpp:152 | joints with unit axes keep attitudes rotations, for any sine and cosine that obey their laws |
| Rodrigues.Turns | hrplib/hrpUtil/Eigen3d.cpp:23-62 | the matrix turns a vector x into x + sin (a x x) + (1 - cos) (a x (a x x)) |
| Rodrigues.IsRotation | hrplib/hrpUtil/Eigen3d.cpp:23-62 | about a unit axis its transpose undoes it |
| Rodrigues.MatricesTurnOn | hrplib/hrpUtil/Eigen3d.cpp:23-62 | about a unit axis, the sum of two angles turns as the one and then the other |
| Rodrigues.KeepsAxis | hrplib/hrpUtil/Eigen3d.cpp:23-62 | it leaves its axis alone |
| Rodrigues.RateIsAcross | hrplib/hrpUtil/Eigen3d.cpp:23-62 | as the angle grows, it turns about the axis |
| ForwardKinematics.RatesUpThenDown | hrplib/hrpModel/LinkTraverse.cpp:95-198 | up and down again gives back both velocities and the angular acceleration; the linear acceleration exactly if the joint does not turn, or swings steadily: going up, the source takes off the centripetal and tangential terms of the child where going down it adds those of the parent |
| ForwardKinematics.AlwaysSteady | hrplib/hrpModel/LinkTraverse.cpp:101-102 | that is so whatever the spin exactly if the arm lies along the axis or the joint neither moves nor accelerates |
| ForwardKinematics.JoinedFits | hrplib/hrpModel/LinkTraverse.cpp:79-203 | in any visit: every pair fits in pose, velocities and angular acceleration, and in linear acceleration exactly unless the pair was climbed by a turning joint out of its steady swing |
| FirstPhase.RatesAgree | hrplib/hrpModel/LinkTraverse.cpp:155-193 | the forward kinematics gives a link the angular velocity and acceleration of the forward dynamics; the linear velocity exactly over turning joints or where the arm does not swing; the linear acceleration exactly over turning and slide joints or where it does not |
| FirstPhase.FitsAsJoint | hrplib/hrpModel/LinkTraverse.cpp:151-184 | a pose that fits its parent in the forward kinematics is the pose the forward dynamics sees over the same joint |
| FirstPhase.AxesAgree | hrplib/hrpModel/LinkTraverse.cpp:157-174 | the axis written with velocities is that of the forward dynamics |
| ForwardKinematics.Upward | hrplib/hrpModel/LinkTraverse.cpp:79-141 | the first loop puts every link of the climb under its child: pose, axis, velocities and accelerations as far as asked for |
| ForwardKinematics.Downward | hrplib/hrpModel/LinkTraverse.cpp:143-202 | the second loop puts every later link on its parent, disturbing none before |
| ForwardKinematics.CalcForwardKinematics | hrplib/hrpModel/LinkTraverse.cpp:79-203 | afterwards every climbed link is as its child makes it, every other as its parent does, in pose, axis, velocities and accelerations as far as asked for, all poses fit their parents, and the start link has kept pose and rates |
| ForwardKinematics.FindAndCalc | hrplib/hrpModel/LinkTraverse.cpp:51-203 | put together: each link visited once, every climbed link under its child, every other on its parent |
| LinkEdit.DetachChild | hrplib/hrpModel/Link.cpp:166-193 | the child leaves the sibling chain, the others keep their order; false and nothing changed if it was no child |
| LinkEdit.AddChild | hrplib/hrpModel/Link.cpp:147-157 | the link heads the new child list, and is gone from the list of the parent it had, its own old place included |
| Mobility.GetPath | hrplib/hrpPlanner/Mobility.cpp:26-40 | the samples of a motion, both ends included |
| Mobility.StepsFit | hrplib/hrpPlanner/Mobility.cpp:26-40 | as many steps as the interpolation distance asks for, and no more |
| Mobility.CheckCollision | hrplib/hrpPlanner/PathPlanner.cpp:706-736 | true if and only if some configuration strictly between the ends collides; each is tested at most once, no stride is zero, the loop ends, and when nothing is found all were tested |
| Mobility.Stride | hrplib/hrpPlanner/PathPlanner.cpp:718-729 | one stride: visits what was not visited, and with step one everything |
| Mobility.Finished | hrplib/hrpPlanner/PathPlanner.cpp:715-716 | once everything is visited the counter says so, so the loop cannot go on to a stride of zero |
| Mobility.IsReachable | hrplib/hrpPlanner/Mobility.cpp:8-24 | reachable if and only if no interior sample collides |
| Roadmap.Roadmap.FindNearestNode | hrplib/hrpPlanner/Roadmap.cpp:42-62 | the first of the nodes at the least distance |
| Roadmap.Roadmap.AddEdge | hrplib/hrpPlanner/Roadmap.cpp:20-25 | child and parent lists grow by one, and the edge count |
| Roadmap.Roadmap.Integrate | hrplib/hrpPlanner/Roadmap.cpp:27-33 | all nodes are handed over |
| Roadmap.Roadmap.DFS | hrplib/hrpPlanner/Roadmap.cpp:78-110 | terminates; the path is not empty if and only if the goal is reachable, and then it is a simple walk along child edges from start to goal |
| Roadmap.Roadmap.Advance | hrplib/hrpPlanner/Roadmap.cpp:90-106 | one step of the search keeps the invariant and uses up unvisited nodes or path |
| Roadmap.Roadmap.RouteStays | hrplib/hrpPlanner/Roadmap.cpp:88-107 | when the search has given up, no route leaves the nodes it is done with |
| Roadmap.Roadmap.TryConnection | hrplib/hrpPlanner/Roadmap.cpp:112-124 | which edges are added, in which direction, and when without a check |
| PRM.Join | hrplib/hrpPlanner/Roadmap.cpp:112-124 | an attempt to connect two nodes adds exactly the edges that can be travelled, the unchecked reverse edge included |
| PRM.PRM.BuildRoadmap | hrplib/hrpPlanner/PRM.cpp:21-66 | the first free configurations drawn, as many as asked for; edges exactly between those near each other, in each direction that can be travelled |
| PRM.PRM.CalcPath | hrplib/hrpPlanner/PRM.cpp:68-115 | a path is found if and only if the roadmap connects start and goal; with no roadmap before, if and only if a way leads from start to goal through the drawn configurations, hop by hop near and reachable; every hop is travelable and interior way points are free |
| PRM.PRM.JoinEnds | hrplib/hrpPlanner/PRM.cpp:82-99 | afterwards the edges are exactly those between configurations that are joined, the ends with whatever is near them |
| PRM.HopsAreNear | hrplib/hrpPlanner/PRM.cpp:52-99 | every hop of such a way is shorter than the limit, measured the one way or the other, and can be travelled |
| PRM.RoutesAreWays | hrplib/hrpPlanner/PRM.cpp:106-114 | routes through the roadmap are ways through the configurations |
| PRM.WalkTravelable | hrplib/hrpPlanner/PRM.cpp:107-109 | a walk through a sound roadmap can be travelled |
| OmniWheel.ComputeDistance | hrplib/hrpPlanner/OmniWheel.cpp:39-54 | the weighted distance, by the shortest turn for an unbounded rotation |
| OmniWheel.ComputeInterpolate | hrplib/hrpPlanner/OmniWheel.cpp:17-36 | part of the straight line, or of the shortest turn, for every component |
| OmniWheel.InterpolationApproaches | hrplib/hrpPlanner/OmniWheel.cpp:17-54 | interpolating by r leaves exactly 1 - r of the distance, unbounded rotations included |
| OmniWheel.InterpolationDeparts | hrplib/hrpPlanner/OmniWheel.cpp:17-54 | and puts exactly r of it behind |
| OmniWheel.DistanceAlone | hrplib/hrpPlanner/OmniWheel.cpp:39-54 | where one degree of freedom moves alone, the distance is its weight times its way |
| OmniWheel.SamplesReverse | hrplib/hrpPlanner/OmniWheel.cpp:17-54 | the samples on the way back are those on the way there, reversed, up to full turns, if and only if no unbounded rotation has to turn by exactly half a turn or there is no sample between the ends |
| OmniWheel.ReachableBack | hrplib/hrpPlanner/OmniWheel.cpp:17-54 | without a half turn, and with a detector that sees angles, what can be reached can be left again |
| OmniWheel.ReachableBackExact | hrplib/hrpPlanner/OmniWheel.cpp:17-54 | over all detectors that see angles: what can be reached can be left again if and only if no unbounded rotation turns by exactly half a turn or there is no sample between the ends |
| OmniWheel.HalfTurnOneWay | hrplib/hrpPlanner/Roadmap.cpp:112-124 | a base that turns, and an obstacle, for which a motion is travelable and its reverse is not, though tryConnection adds that edge unchecked |
| Turning.ThetaLimit | hrplib/hrpPlanner/OmniWheel.cpp:10-15 | ends for every angle, and gives the same angle between zero and a full turn |
| Turning.DeltaBack | hrplib/hrpPlanner/OmniWheel.cpp:25-30 | the shortest way back is the way there reversed, except for half a turn, which is forward both ways |
| Turning.DeltaToEnd | hrplib/hrpPlanner/OmniWheel.cpp:25-30 | from a part of the way there, the shortest way to the end is the rest of it |
| OmniWheel.OmniWheelReverses | hrplib/hrpPlanner/Roadmap.cpp:112-124 | without unbounded rotations a travelable motion is travelable backwards, which justifies the unchecked reverse edge |
| OmniWheel.SamplesAreDense | hrplib/hrpPlanner/Mobility.cpp:26-40 | neighbouring samples are at most interpolationDistance apart |
| RRT.RRT.Extend | hrplib/hrpPlanner/RRT.cpp:33-102 | Trapped exactly if the step from the first nearest node collides or cannot be travelled, and then nothing changed; Reached at the target, no farther than eps from the tree; Advanced eps nearer to the target than any node before, and eps from the node it hangs on |
| RRT.RRT.Connect | hrplib/hrpPlanner/RRT.cpp:104-115 | ends; extends exactly until an extension does not advance, with its result |
| RRT.RRT.ExtendOneStep | hrplib/hrpPlanner/RRT.cpp:154-184 | both trees, whose turn it is and the result are those of one trial by value: one tree towards the draw, the other, or the same, on to the new node or the goal, in turns; the extra check decides where the trees have met |
| RRT.RRT.WalkFromStart | hrplib/hrpPlanner/RRT.cpp:132-139 | the way points from the start to the last node, every hop travelable |
| RRT.RRT.WalkToGoal | hrplib/hrpPlanner/RRT.cpp:141-151 | on to the goal; it follows a null pointer exactly when both trees grow and the second has only its root |
| RRT.RRT.ExtractPath | hrplib/hrpPlanner/RRT.cpp:121-152 | after a successful trial, a travelable path from start to goal |
| RRT.RRT.CalcPath | hrplib/hrpPlanner/RRT.cpp:186-225 | from fresh trees: result and both trees are those of the search by value, up to the first trial that succeeds; success gives a travelable path from start to goal; the null pointer is followed if and only if both trees grow and the tree of the goal is still only its root |
| TreeGrowth.UnreachableGoal | hrplib/hrpPlanner/RRT.cpp:186-225 | where no configuration can reach the goal, a search from both sides follows the null pointer, for all draws and any number of trials |
| TreeGrowth.FoundMeets | hrplib/hrpPlanner/RRT.cpp:154-184 | a trial succeeds only if the trees have met, or the first has reached the goal |
| TreeGrowth.FoundStays | hrplib/hrpPlanner/RRT.cpp:209-216 | the search stops at the first success |
| TreeGrowth.Closes | hrplib/hrpPlanner/RRT.cpp:47-60 | an extension that advances takes exactly eps off the distance to the target, so a connection ends |
| TreeGrowth.StepsEps | hrplib/hrpPlanner/RRT.cpp:47-49 | a step towards a far target goes eps from the nearest node, and comes eps nearer |
| TreeGrowth.TakeTurns | hrplib/hrpPlanner/RRT.cpp:157-172 | while both trees grow and nothing is found they take turns |
| TreeGrowth.TurnGrows | hrplib/hrpPlanner/RRT.cpp:157-172 | in its turn a tree gets at most one node, the other only what leads towards that one |
| PathPlanner.PathPlanner.PreparePlanning | hrplib/hrpPlanner/Algorithm.cpp:64-119 | true if and only if both ends are valid and, unless told to ignore it, free |
| PathPlanner.PathPlanner.CalcPath | hrplib/hrpPlanner/PathPlanner.cpp:737-769 | found exactly if the ends fit and the goal is reached directly or by the search; the way points then run from start to goal and their whole interpolated motion is collision-free, but for an end whose collision is to be ignored; it fails as the search does |
| PathPlanner.PathPlanner.Optimize | hrplib/hrpPlanner/PathPlanner.cpp:771-781 | drops exactly the way points that can be skipped, and keeps the ends; if the path was travelable, it still is, and collision-free as before |
| PathPlanner.PathPlanner.GetPath | hrplib/hrpPlanner/PathPlanner.cpp:787-800 | the interpolated motion |
| Paths.TravelableIsFree | hrplib/hrpPlanner/PathPlanner.cpp:787-800 | if hops are travelable and way points free, every configuration of the interpolated motion strictly between its ends is free |
| Paths.FinalPath | hrplib/hrpPlanner/PathPlanner.cpp:787-800 | way points joined by their samples, each way point once |
| Paths.NeighboursAreSamples | hrplib/hrpPlanner/PathPlanner.cpp:787-800 | neighbours on the interpolated motion are neighbouring samples of one hop |
| Paths.WayPointsOnPath | hrplib/hrpPlanner/PathPlanner.cpp:787-800 | every way point is on it |
| Paths.Optimize | hrplib/hrpPlanner/ShortcutOptimizer.cpp:7-22 | a way point between the ends is dropped if and only if the next one can be reached from the last one kept; the result keeps the ends and the order, and stays travelable if it was |
| Paths.SkippedOneWay | hrplib/hrpPlanner/ShortcutOptimizer.cpp:7-22 | that leaves one choice of way points only |
| Clipping.ClippingConserves | hrplib/hrpUtil/Triangulator.cpp:20-86 | for every antisymmetric edge weight, the clipped triangles and the rest of the polygon weigh what the polygon did |
| Clipping.RemoveWeight | hrplib/hrpUtil/Triangulator.cpp:80-83 | clipping one ear takes exactly its triangle's weight off the polygon |
| Clipping.BoundaryCovered | hrplib/hrpUtil/Triangulator.cpp:50-86 | once two vertices are left, the directed edges of the clipped triangles cancel to exactly the boundary |
| Clipping.AreaConserved | hrplib/hrpUtil/Triangulator.cpp:42-86 | the vector area of the polygon is that of the clipped triangles plus that of what is left |
| Triangulator.Triangulator.CalcConvexity | hrplib/hrpUtil/Triangulator.cpp:89-107 | flat, convex or concave by the sign against the cyclic cross sum |
| Triangulator.FlatIsShort | hrplib/hrpUtil/Triangulator.cpp:96-101 | by the test as it is written, an ear is flat only if its neighbours are less than the limit apart, and an ear whose corners lie on a line exactly then |
| Triangulator.Triangulator.CheckIfEarContainsOtherVertices | hrplib/hrpUtil/Triangulator.cpp:110-146 | true if and only if another vertex is inside the ear; for an ear that turns as the polygon that is: some other vertex is a mean of its three corners with positive weights, seen along the cyclic cross sum; the mask is left clean |
| Triangulator.InsideIsCovered | hrplib/hrpUtil/Triangulator.cpp:127-138 | the test by three signs holds exactly for the points that are means of the corners with positive weights |
| Triangulator.Triangulator.FindTarget | hrplib/hrpUtil/Triangulator.cpp:56-76 | the first ear that is flat or convex and empty, or none if no ear can be clipped |
| Triangulator.Triangulator.RemoveEar | hrplib/hrpUtil/Triangulator.cpp:80-83 | shifting in place removes exactly that vertex |
| Triangulator.Triangulator.CrossSum | hrplib/hrpUtil/Triangulator.cpp:42-46 | the cyclic cross sum is the vector area of the fan |
| Triangulator.Triangulator.Apply | hrplib/hrpUtil/Triangulator.cpp:20-86 | terminates with at most n - 2 clips; each clip is the first ear that can be clipped, kept unless flat, and clipping goes on until a triangle is left or no ear can be clipped; the triangles are those of the clips kept, each kept ear good |
| Triangulator.WellCutOnce | hrplib/hrpUtil/Triangulator.cpp:20-86 | a polygon is cut up in one way only |
| Triangulator.EmittedTurn | hrplib/hrpUtil/Triangulator.cpp:64-73 | each triangle kept has three different corners and positive dot product with the cyclic cross sum |
| TriangleMeshShaper.TMSImpl.ConvertCoordIndex | hrplib/hrpUtil/TriangleMeshShaper.cpp:268-323 | coordinate list, position map and face map are those of the triangles of all closed faces, each face cut up as the triangulator does |
| TriangleMeshShaper.TMSImpl.TakeIndex | hrplib/hrpUtil/TriangleMeshShaper.cpp:297-322 | one index: kept, passed over, or the end of a face, which is cut up |
| TriangleMeshShaper.TMSImpl.TakeFace | hrplib/hrpUtil/TriangleMeshShaper.cpp:303-321 | the triangles of one face, cut up as the triangulator does, turned round unless ccw |
| TriangleMeshShaper.TMSImpl.CheckAndRemapIndices | hrplib/hrpUtil/TriangleMeshShaper.cpp:367-434 | which lists and values are remapped and how, in all six cases, and exactly when an error is reported |
| TriangleMeshShaper.TMSImpl.RemapDirectMapObjectsPerFaces | hrplib/hrpUtil/TriangleMeshShaper.cpp:348-363 | every triangle gets the value of its face, up to the first whose face has none; then it is an error |
| TriangleMeshShaper.TMSImpl.SetTexCoordIndex | hrplib/hrpUtil/TriangleMeshShaper.cpp:438-468 | copied from the coordinates if empty, else remapped corner by corner |
| TriangleMeshShaper.TMSImpl.ConvertIndexedFaceSet | hrplib/hrpUtil/TriangleMeshShaper.cpp:268-343 | the whole conversion in place, normals turned round with clockwise faces, with the condition of its result |
| TriangleMeshShaper.RemappingCarries | hrplib/hrpUtil/TriangleMeshShaper.cpp:268-434 | by vertex or by face, with an index list or without: where no index is out of range, every output corner has the vertex, the colour or normal, and the face of one corner of the original |
| TriangleMeshShaper.TextureCarries | hrplib/hrpUtil/TriangleMeshShaper.cpp:438-468 | and its texture coordinate index |
| FaceSetTriangles.CornerMeaning | hrplib/hrpUtil/TriangleMeshShaper.cpp:297-322 | every output corner carries the vertex of one original corner of the same face, and the position map is right if and only if no index was passed over in that face before it |
| FaceSetTriangles.OutputTurns | hrplib/hrpUtil/TriangleMeshShaper.cpp:270-311 | every output triangle of a face with more than three corners turns as its face does if ccw, and the other way if not |
| FaceSetTriangles.SkippingShifts | hrplib/hrpUtil/TriangleMeshShaper.cpp:299-302 | a list with an index out of range in front, for which the map is wrong |
| FaceSetTriangles.OpenFaceDropped | hrplib/hrpUtil/TriangleMeshShaper.cpp:303-321 | a last face without a closing -1 is not converted |
| FaceSetTriangles.FacesCutOnce | hrplib/hrpUtil/TriangleMeshShaper.cpp:297-322 | the faces of an index list are cut up in one way only |
| PrimitiveMeshes.ConvertCone | hrplib/hrpUtil/TriangleMeshShaper.cpp:565-600 | the parts asked for, for all flags: an oriented surface of n triangles to a part, the apex used if and only if there is a side, the middle of the bottom if and only if there is a bottom; one part alone ends exactly at the ring |
| PrimitiveMeshes.ConvertCylinder | hrplib/hrpUtil/TriangleMeshShaper.cpp:603-650 | the parts asked for, for all flags: an oriented surface, its poles used exactly with their parts, that ends exactly at a ring where just one of two parts that meet there is asked for |
| PrimitiveMeshes.ConvertSphere | hrplib/hrpUtil/TriangleMeshShaper.cpp:653-708 | the index list of the sphere |
| PrimitiveMeshes.ConeParts | hrplib/hrpUtil/TriangleMeshShaper.cpp:585-600 | for every division number and all flags |
| PrimitiveMeshes.CylinderParts | hrplib/hrpUtil/TriangleMeshShaper.cpp:622-650 | for every division number and all flags |
| PrimitiveMeshes.DivisionNumber | hrplib/hrpUtil/TriangleMeshShaper.cpp:116-119 | never fewer than four divisions, negative numbers included |
| PrimitiveMeshes.ConeCloses | hrplib/hrpUtil/TriangleMeshShaper.cpp:565-600 | for every division number a whole cone is a closed, consistently oriented surface that uses all its vertices, and the numbers of its vertices, edges and triangles satisfy V - E + F = 2 |
| PrimitiveMeshes.CylinderCloses | hrplib/hrpUtil/TriangleMeshShaper.cpp:603-650 | the same for a whole cylinder |
| PrimitiveMeshes.SphereCloses | hrplib/hrpUtil/TriangleMeshShaper.cpp:653-708 | the same for a sphere |
| RingMesh.AllFacesClose | hrplib/hrpUtil/TriangleMeshShaper.cpp:565-708 | any shape of rings between two poles: indices in range, every directed edge once, its reverse once, in another triangle |
| RingMesh.EdgeReversed | hrplib/hrpUtil/TriangleMeshShaper.cpp:565-708 | every directed edge has its reverse in another face |
| RingMesh.EdgeOnce | hrplib/hrpUtil/TriangleMeshShaper.cpp:565-708 | no directed edge occurs twice |
| RingMesh.BorderIs | hrplib/hrpUtil/TriangleMeshShaper.cpp:565-708 | with any faces left out, the border is exactly where the face across is missing |
| RingMesh.AllFacesEuler | hrplib/hrpUtil/TriangleMeshShaper.cpp:565-708 | and its sets of vertices, undirected edges and triangles have V - E + F = 2 |
| Surface.EdgeCount | hrplib/hrpUtil/TriangleMeshShaper.cpp:565-708 | in a closed surface twice the number of undirected edges is three times the number of triangles |
| Surface.VertexCount | hrplib/hrpUtil/TriangleMeshShaper.cpp:565-708 | where every vertex number occurs, the triangles use exactly as many vertices as there are numbers |
| SSVTreeCollider.SSVTreeCollider.DistanceFrom | hrplib/hrpCollision/SSVTreeCollider.cpp:166-203 | the pruned recursion improves the best hit to the least over all pairs of triangles below, or leaves it |
| SSVTreeCollider.SSVTreeCollider.Distance | hrplib/hrpCollision/SSVTreeCollider.cpp:30-70 | from the first leaves of both node lists: the minimum over all pairs of triangles, with ids that attain it and their nearest points taken to the world |
| SSVTreeCollider.SSVTreeCollider.CollideFrom | hrplib/hrpCollision/SSVTreeCollider.cpp:205-240 | true if and only if some pair of triangles is within the tolerance; the ids are such a pair |
| ColdetModel.ColdetModelSharedDataSet.ComputeDepth | hrplib/hrpCollision/ColdetModel.cpp:230-256 | adds the node and leaf counts of the subtree at every depth, and returns the greatest depth |
| ColdetModel.ColdetModelSharedDataSet.Build | hrplib/hrpCollision/ColdetModel.cpp:159-188 | the stored count of every depth is the number of its boxes |
| ColdetModel.ColdetModelSharedDataSet.NumofBBtoDepth | hrplib/hrpCollision/ColdetModel.cpp:190-195 | the least depth with enough boxes, or one past the last if and only if there are too few triangles |
| ColdetModel.GetBoundingBoxDataSub | hrplib/hrpCollision/ColdetModel.cpp:206-221 | emits exactly the boxes of the depth |
| ColdetModel.GetBoundingBoxData | hrplib/hrpCollision/ColdetModel.cpp:223-227 | as many boxes as the stored count says |
| ColdetModel.CutSize | hrplib/hrpCollision/ColdetModel.cpp:206-256 | boxes of a depth are the nodes there and the leaves above |
| ColdetModel.CutCovers | hrplib/hrpCollision/ColdetModel.cpp:206-221 | the boxes of every depth cover every triangle exactly once |
| ColdetModel.CutGrows | hrplib/hrpCollision/ColdetModel.cpp:179-183 | the counts never decrease |
| ColdetModel.CutFinest | hrplib/hrpCollision/ColdetModel.cpp:179-183 | the last count is the number of triangles |
| VrmlWriter.VrmlWriter.WriteNode | hrplib/hrpUtil/VrmlWriter.cpp:124-130 | the tokens of the tree are appended, and the indentation comes back to zero |
| VrmlWriter.VrmlWriter.WriteNodeIter | hrplib/hrpUtil/VrmlWriter.cpp:133-139 | the same for any supported node, indentation as before |
| VrmlWriter.VrmlWriter.WriteGroupFields | hrplib/hrpUtil/VrmlWriter.cpp:170-185 | box if set, and children if any |
| VrmlWriter.VrmlWriter.WriteTransformNode | hrplib/hrpUtil/VrmlWriter.cpp:188-203 | the transform fields in order, then the group fields |
| VrmlWriter.VrmlWriter.WriteShapeNode | hrplib/hrpUtil/VrmlWriter.cpp:206-229 | appearance and geometry if any |
| VrmlWriter.VrmlWriter.WriteIndexedFaceSetNode | hrplib/hrpUtil/VrmlWriter.cpp:262-285 | coordinates, index list and flags |
| VrmlWriter.VrmlWriter.WriteInts | hrplib/hrpUtil/VrmlWriter.cpp:66-87 | an integer list in brackets |
| VrmlWriter.VrmlWriter.WriteVecs | hrplib/hrpUtil/VrmlWriter.cpp:43-63 | a vector list in brackets |
| VrmlNodes.FieldsRestore | hrplib/hrpUtil/VrmlParser.cpp:1067-1140 | the printed fields, set on a freshly constructed node, give the node back |
| VrmlNodes.DefaultsPrinted | hrplib/hrpUtil/VrmlNodes.cpp:133-304 | what is printed of a node read without fields: the defaults of the standard |
| VrmlParser.FieldsOfCanonical | hrplib/hrpUtil/VrmlParser.cpp:1067-1140 | every printed field is known to its node type and read back unchanged |
| VrmlParser.VrmlParser.ReadNode | hrplib/hrpUtil/VrmlParser.cpp:502-600 | text that starts with a printed node is read as that node, its name included, and exactly that text is consumed |
| VrmlParser.VrmlParser.ReadSFNode | hrplib/hrpUtil/VrmlParser.cpp:2478-2488 | NULL or no node leaves none, a printed node is read |
| VrmlParser.VrmlParser.ReadFields | hrplib/hrpUtil/VrmlParser.cpp:1067-1093 | the field loop reads printed fields back |
| VrmlParser.VrmlParser.ReadNodes | hrplib/hrpUtil/VrmlParser.cpp:2504-2535 | a bracketed list of nodes |
| VrmlParser.VrmlParser.ReadInts | hrplib/hrpUtil/VrmlParser.cpp:2150-2168 | a bracketed list of integers, or one |
| VrmlParser.VrmlParser.ReadVecs | hrplib/hrpUtil/VrmlParser.cpp:2281-2299 | a bracketed list of vectors, or one |
| VrmlParser.VrmlParser.ReadRotation | hrplib/hrpUtil/VrmlParser.cpp:2325-2350 | a unit axis is not changed by normalizing |
| VrmlText.TransformText | hrplib/hrpUtil/VrmlWriter.cpp:188-203 | the tokens of a transform without children, for all its values |
| VrmlText.MaterialText | hrplib/hrpUtil/VrmlWriter.cpp:247-259 | the tokens of a material, for all its values |
| VrmlRoundTrip.RoundTrip | hrplib/hrpUtil/VrmlWriter.cpp:124-298 | for every canonical tree: parsing what the writer prints gives the same tree, whatever text follows |

## Left out

- ContactSolver.Solve: the velocity and penetration terms of the constant vector are an arbitrary input, and whether the iteration reaches a fixed point is not claimed.
- GaussSeidelLoops.SolveMCPByProjectedGaussSeidel: the optional initial iteration with a ramped factor (off by default) is not modelled.
- ContactPoints.SetConstraintPoints: relative velocities, impact detection and the choice between static and dynamic friction coefficients are not modelled; coefficients are an input of the solver.
- TestForce.CalcAccelsABM: bodies in high-gain mode (ForwardDynamicsMM) are not modelled; the source notes itself that same-body test forces do not work there.
- ForwardDynamics.ForwardDynamicsABM.CalcABMPhase3: free joints other than the root's are not modelled.
- Body.Body.CalcMassMatrix: a static model, which has no joints and an empty matrix, and the dummy joints that stand for unused joint ids, are not modelled.
- MotionAxes.MassEquationExact: every moving joint is taken to have a joint id, and a slide joint no turning axis, as the model loader leaves it.
- RRT.RRT.CalcPath: one fresh run; growing the same roadmaps again is not modelled.
- PRM.PRM.BuildRoadmap: being stopped from outside is modelled by running out of draws; its result is not looked at, as in the source.
- Mobility.GetPath: sample counts are unbounded integers, without the truncation of an unsigned int.
- Triangulator.Triangulator.CalcConvexity: the flatness formula is an arbitrary predicate of the two edge vectors, so all that is said of clipping holds for any; `MeasuredFlat` is the one in the source.
- TriangleMeshShaper.TMSImpl.ConvertIndexedFaceSet: index lists are taken to be as long as the source reads them.
- PrimitiveMeshes.ConvertSphere: vertex coordinates of the primitives are not modelled.
- SSVTreeCollider.SSVTreeCollider.Distance: distance formulas between volumes and between triangles are not modelled, nor single precision.
- ColdetModel.ColdetModelSharedDataSet.Build: one build of a data set.
- VrmlRoundTrip.RoundTrip: texts are token lists, so layout, comments and the spelling of numbers are not modelled; USE, IS, PROTO, Inline, Script and the node types the writer does not know are not part of this model.
- VrmlParser.VrmlParser.ReadNodes: an absent node in place of a list, which the source takes as a list with a null pointer, is an error here.
- VrmlParser.VrmlParser.ReadFields: the seven field loops of the source, which differ only in the fields they know, are one loop over a table of fields.
- Data of bodies in the contact solver (`TestForce.BodyData`, `LinkData`) are values that its methods replace, so aliasing between link pairs and bodies is not captured.
- Integration, sensors, inverse kinematics, collision detection itself, CORBA interfaces and file access.
- RandomShortcutOptimizer: inserts interpolated points that are not checked, so the path theorem does not extend to it.
