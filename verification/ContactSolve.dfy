/** From the first test force to the final accelerations: what the contact solver is for. */
module ContactSolve {
  import opened Dynamics
  import opened ForwardDynamics
  import opened TestForce
  import opened ContactResponse
  import opened ContactWork
  import opened ConstraintForceSolver
  import opened ConstraintForces
  import opened Matrix
  import opened ContactStep
  import opened ContactProblem
  import opened GaussSeidelLoops
  import GaussSeidel

  const SINGULAR: real := 0.0001

  /** Column i of M' is what clearing leaves of column i of M. */
  ghost predicate ColumnCleared(M: array2<real>, was: real, i: nat)
    requires i < M.Length0 == M.Length1
    reads M
  {
    was < SINGULAR ==> GaussSeidel.Cleared(M, i) && forall j :: 0 <= j < M.Length0 && j != i ==> M[j, i] == 0.0
  }

  method ClearSingularPointConstraints(M: array2<real>)
    requires M.Length0 == M.Length1
    modifies M
    ensures GaussSeidel.PositiveDiagonal(M)
    ensures forall i :: 0 <= i < M.Length0 ==> ColumnCleared(M, old(M[i, i]), i)
    ensures forall i, j :: 0 <= i < M.Length0 && 0 <= j < M.Length0 && old(M[i, i]) >= SINGULAR ==> M[j, i] == old(M[j, i])
  {
    for i := 0 to M.Length0
      invariant forall k :: 0 <= k < i ==> M[k, k] > 0.0 && ColumnCleared(M, old(M[k, k]), k)
      invariant forall k, j :: 0 <= k < M.Length0 && 0 <= j < M.Length0 && (k >= i || old(M[k, k]) >= SINGULAR) ==> M[j, k] == old(M[j, k])
    {
      if M[i, i] < SINGULAR {
        ClearColumn(M, i);
      }
    }
  }

  method ClearColumn(M: array2<real>, i: nat)
    requires i < M.Length0 == M.Length1
    modifies M
    ensures M[i, i] == GaussSeidel.DBL_MAX && forall j :: 0 <= j < M.Length0 && j != i ==> M[j, i] == 0.0
    ensures forall k, j :: 0 <= k < M.Length0 && 0 <= j < M.Length0 && k != i ==> M[j, k] == old(M[j, k])
  {
    for j := 0 to M.Length0
      invariant forall l :: 0 <= l < j ==> M[l, i] == 0.0
      invariant forall k, l :: 0 <= k < M.Length0 && 0 <= l < M.Length0 && k != i ==> M[l, k] == old(M[l, k])
    {
      M[j, i] := 0.0;
    }
    M[i, i] := GaussSeidel.DBL_MAX;
  }

  /** What the contact laws are about: the relative accelerations found in the links after the
      forward dynamics, plus what the velocities ask to be made up for. */
  ghost function Final(links: seq<seq<Link>>, sc: Scene, dirs: seq<Dir>, e: seq<real>): (r: seq<real>)
    requires |links| == |sc.trees| == |sc.isStatic| && |e| == |dirs|
    requires forall k :: 0 <= k < |dirs| ==> InScene(sc, dirs[k])
    requires forall b :: 0 <= b < |links| ==> |links[b]| == |sc.trees[b].joints|
    reads AllLinks(links)
    ensures |r| == |dirs| && forall k :: 0 <= k < |r| ==> r[k] == Measured(links, sc, dirs[k]) + e[k]
  {
    seq(|dirs|, k requires 0 <= k < |dirs| reads AllLinks(links) => Measured(links, sc, dirs[k]) + e[k])
  }

  /** The same without what the tests missed of the forces x: what the solver believes. */
  ghost function Believed(links: seq<seq<Link>>, sc: Scene, f: AllForces, dirs: seq<Dir>, e: seq<real>, x: seq<real>): (r: seq<real>)
    requires Valid(sc) && Fits(sc, f) && |links| == |sc.trees| && |e| == |dirs| == |x|
    requires forall k :: 0 <= k < |dirs| ==> InScene(sc, dirs[k])
    requires forall b :: 0 <= b < |links| ==> |links[b]| == |sc.trees[b].joints|
    reads AllLinks(links)
    ensures |r| == |dirs|
    ensures forall k :: 0 <= k < |r| ==> r[k] == Final(links, sc, dirs, e)[k] - MissedTimes(sc, f, dirs[k], dirs, x, |x|)
  {
    seq(|dirs|, k requires 0 <= k < |dirs| reads AllLinks(links) =>
      Final(links, sc, dirs, e)[k] - MissedTimes(sc, f, dirs[k], dirs, x, |x|))
  }

  /** Row r holds the reading of dirs[r] for every direction whose variable is still in play. */
  ghost predicate RowMeasured(M: array2<real>, sc: Scene, f: AllForces, dirs: seq<Dir>, r: nat)
    requires Valid(sc) && Fits(sc, f) && |dirs| == M.Length0 == M.Length1 && r < |dirs|
    requires forall k :: 0 <= k < |dirs| ==> InScene(sc, dirs[k])
    reads M
  {
    forall k :: 0 <= k < |dirs| && !GaussSeidel.Cleared(M, k) ==> M[r, k] == Reading(sc, f, dirs[r], dirs[k])
  }

  /** What the solver works on: the readings, but a column whose own reading is too small is cleared. */
  ghost function SolverEntry(sc: Scene, f: AllForces, dirs: seq<Dir>, r: nat, c: nat): real
    requires Valid(sc) && Fits(sc, f) && r < |dirs| && c < |dirs|
    requires forall k :: 0 <= k < |dirs| ==> InScene(sc, dirs[k])
  {
    if Reading(sc, f, dirs[c], dirs[c]) >= SINGULAR then Reading(sc, f, dirs[r], dirs[c])
    else if r == c then GaussSeidel.DBL_MAX else 0.0
  }

  ghost predicate SolverMatrix(M: array2<real>, sc: Scene, f: AllForces, dirs: seq<Dir>)
    requires Valid(sc) && Fits(sc, f)
    requires forall k :: 0 <= k < |dirs| ==> InScene(sc, dirs[k])
    reads M
  {
    M.Length0 == M.Length1 == |dirs|
    && forall r: nat, c: nat :: r < |dirs| && c < |dirs| ==> M[r, c] == SolverEntry(sc, f, dirs, r, c)
  }

  /** The constant vector: default accelerations, and what e asks to be made up for. */
  ghost function Constants(sc: Scene, f: AllForces, dirs: seq<Dir>, e: seq<real>): (b: seq<real>)
    requires Valid(sc) && Fits(sc, f) && |e| == |dirs|
    requires forall k :: 0 <= k < |dirs| ==> InScene(sc, dirs[k])
    ensures |b| == |dirs| && forall r :: 0 <= r < |dirs| ==> b[r] == RelAccel(sc, f, dirs[r]) + e[r]
  {
    seq(|dirs|, r requires 0 <= r < |dirs| => RelAccel(sc, f, dirs[r]) + e[r])
  }

  /** Where both sides are tested at once, the columns in play are symmetric. */
  lemma SolverSymmetric(M: array2<real>, sc: Scene, f: AllForces, dirs: seq<Dir>, r: nat, c: nat)
    requires Valid(sc) && Whole(sc) && Fits(sc, f) && r < |dirs| && c < |dirs| && dirs[r].together && dirs[c].together
    requires forall k :: 0 <= k < |dirs| ==> InScene(sc, dirs[k])
    requires SolverMatrix(M, sc, f, dirs) && !GaussSeidel.Cleared(M, r) && !GaussSeidel.Cleared(M, c)
    ensures M[r, c] == M[c, r]
  {
    hide Reading; hide Valid; hide Whole; hide Fits; hide InScene;
    assert M[r, c] == SolverEntry(sc, f, dirs, r, c) && M[c, r] == SolverEntry(sc, f, dirs, c, r);
    assert M[r, r] == SolverEntry(sc, f, dirs, r, r) && M[c, c] == SolverEntry(sc, f, dirs, c, c);
    ReadingSymmetric(sc, f, dirs[r], dirs[c]);
  }

  /** So a row is cleared exactly if its own reading is too small, or is the mark itself; and all other
      columns are measured. */
  lemma ClearedExactly(M: array2<real>, sc: Scene, f: AllForces, dirs: seq<Dir>, r: nat)
    requires Valid(sc) && Fits(sc, f) && r < |dirs|
    requires forall k :: 0 <= k < |dirs| ==> InScene(sc, dirs[k])
    requires SolverMatrix(M, sc, f, dirs)
    ensures GaussSeidel.PositiveDiagonal(M) && RowMeasured(M, sc, f, dirs, r)
    ensures GaussSeidel.Cleared(M, r) <==>
      Reading(sc, f, dirs[r], dirs[r]) < SINGULAR || Reading(sc, f, dirs[r], dirs[r]) == GaussSeidel.DBL_MAX
  {
    hide Reading; hide Valid; hide Fits; hide InScene;
    forall k: nat | k < |dirs| ensures M[k, k] > 0.0 { assert M[k, k] == SolverEntry(sc, f, dirs, k, k); }
    assert M[r, r] == SolverEntry(sc, f, dirs, r, r);
    forall k: nat | k < |dirs| && !GaussSeidel.Cleared(M, k) ensures M[r, k] == Reading(sc, f, dirs[r], dirs[k]) {
      assert M[r, k] == SolverEntry(sc, f, dirs, r, k) && M[k, k] == SolverEntry(sc, f, dirs, k, k);
    }
  }

  lemma FinalIsResidual(links: seq<seq<Link>>, M: array2<real>, b: seq<real>, e: seq<real>, x: seq<real>, sc: Scene,
                        f: AllForces, dirs: seq<Dir>, r: nat)
    requires Valid(sc) && Fits(sc, f) && |links| == |sc.trees| && |x| == |dirs| == |b| == |e| == M.Length0 == M.Length1 && r < |dirs|
    requires forall b :: 0 <= b < |links| ==> |links[b]| == |sc.trees[b].joints|
    requires forall k :: 0 <= k < |dirs| ==> InScene(sc, dirs[k])
    requires b[r] == RelAccel(sc, f, dirs[r]) + e[r] && RowMeasured(M, sc, f, dirs, r)
    requires forall k :: 0 <= k < |x| && GaussSeidel.Cleared(M, k) ==> x[k] == 0.0
    requires var f' := AlongAll(sc, f, dirs, x, |dirs|); forall b :: 0 <= b < |links| ==>
      Linked(links[b], sc.trees[b]) && Accels(links[b]) == Acc(sc.trees[b], f'[b], sc.solve)
    ensures Residuals(M, b, x)[r] == Believed(links, sc, f, dirs, e, x)[r]
  {
    hide Measured; hide Linked; hide Acc; hide RowTimes; hide MissedTimes; hide RowDot; hide RelAccel; hide InScene; hide Along; hide AlongAll; hide Reading; hide GaussSeidel.Cleared;
    MeasuredIs(links, sc, AlongAll(sc, f, dirs, x, |dirs|), dirs[r]);
    ResponseExact(sc, f, dirs[r], dirs, x, |dirs|);
    forall k | 0 <= k < |x| ensures x[k] == 0.0 || M[r, k] == Reading(sc, f, dirs[r], dirs[k]) {
      assert GaussSeidel.Cleared(M, k) || M[r, k] == Reading(sc, f, dirs[r], dirs[k]);
    }
    RowsAgree(M, sc, f, dirs, x, r, |dirs|);
  }

  /** Measures, clears the singular rows, and sets the constant vector. */
  method Prepare(cfs: CFSImpl, e: seq<real>, ghost sc: Scene, ghost f: AllForces, ghost dirs: seq<Dir>) returns (b: seq<real>)
    requires Shape(cfs.bodies, sc, f) && cfs.solve == sc.solve && cfs.Sized(dirs) && |e| == |dirs|
    requires forall b :: 0 <= b < |cfs.bodies| ==> Startable(cfs.bodies[b], sc.trees[b], f[b]) && !cfs.bodies[b].isTestForceBeingApplied
    requires forall i :: 0 <= i < |cfs.constrainedLinkPairs| ==> PairStarts(cfs.constrainedLinkPairs[i], cfs.bodies, sc)
    requires forall k :: 0 <= k < |dirs| ==> InScene(sc, dirs[k])
    requires Numbered(cfs.constrainedLinkPairs, 0, 0, 0, dirs, cfs.globalNumConstraintVectors)
    modifies cfs`bodies, cfs`an0, cfs`at0, cfs`defaultAccel, cfs.Mlcp
    ensures cfs.Sized(dirs) && SolverMatrix(cfs.Mlcp, sc, f, dirs) && b == Constants(sc, f, dirs, e)
    ensures SameFlags(old(cfs.bodies), cfs.bodies)
  {
    hide Startable; hide PairStarts; hide Numbered; hide InScene; hide Reading; hide RelAccel; hide Valid; hide Fits;
    Measure(cfs, sc, f, dirs);
    forall r: nat | r < |dirs| ensures Default(cfs, r) == RelAccel(sc, f, dirs[r]) { DefaultIs(cfs, sc, f, dirs, r); }
    var a0 := cfs.an0 + cfs.at0;
    b := seq(|e|, r requires 0 <= r < |e| && |e| <= |a0| => a0[r] + e[r]);
    label measured:
    ClearSingularPointConstraints(cfs.Mlcp);
    forall r: nat, c: nat | r < |dirs| && c < |dirs| ensures cfs.Mlcp[r, c] == SolverEntry(sc, f, dirs, r, c) {
      assert old@measured(cfs.Column(sc, f, dirs, c));
      assert ColumnCleared(cfs.Mlcp, old@measured(cfs.Mlcp[c, c]), c);
    }
  }

  /** The forces of one step: measured, cleared, and swept. */
  method SolveForces(cfs: CFSImpl, z: GaussSeidel.Sizes, e: seq<real>, mu: seq<real>,
                     x: array<real>, mcpHi: array<real>, sqrt: real -> real, norm: seq<real> -> real, threshold: real,
                     maxNumGaussSeidelIteration: nat, gaussSeidelMaxRelError: real,
                     ghost sc: Scene, ghost f: AllForces, ghost dirs: seq<Dir>)
    returns (b: seq<real>, ghost run: seq<seq<real>>)
    requires Shape(cfs.bodies, sc, f) && cfs.solve == sc.solve && cfs.Sized(dirs) && x.Length == |e| == |dirs| == z.Total()
    requires z.nc <= z.n == cfs.globalNumConstraintVectors && mcpHi.Length == |mu| == z.nc && x != mcpHi
    requires GaussSeidel.IsSqrt(sqrt) && forall t :: 0 <= t < z.nc ==> mu[t] >= 0.0
    requires forall b :: 0 <= b < |cfs.bodies| ==> Startable(cfs.bodies[b], sc.trees[b], f[b]) && !cfs.bodies[b].isTestForceBeingApplied
    requires forall i :: 0 <= i < |cfs.constrainedLinkPairs| ==> PairStarts(cfs.constrainedLinkPairs[i], cfs.bodies, sc)
    requires forall k :: 0 <= k < |dirs| ==> InScene(sc, dirs[k])
    requires Numbered(cfs.constrainedLinkPairs, 0, 0, 0, dirs, cfs.globalNumConstraintVectors)
    modifies cfs`bodies, cfs`an0, cfs`at0, cfs`defaultAccel, cfs.Mlcp, x, mcpHi
    ensures cfs.Sized(dirs) && SolverMatrix(cfs.Mlcp, sc, f, dirs) && b == Constants(sc, f, dirs, e)
    ensures SameFlags(old(cfs.bodies), cfs.bodies) && GaussSeidel.PositiveDiagonal(cfs.Mlcp)
    ensures forall j :: 0 <= j < z.nc ==> x[j] >= 0.0
    ensures forall t :: 0 <= t < z.nc ==> InCone(z, mu, x[..], t)
    ensures forall j :: 0 <= j < |dirs| && GaussSeidel.Cleared(cfs.Mlcp, j) ==> x[j] == 0.0
    ensures |run| >= 2 && run[0] == old(x[..]) && run[|run| - 1] == x[..] && Run(z, cfs.Mlcp, b, mu, sqrt, run)
    ensures Stopped(run, norm, threshold, maxNumGaussSeidelIteration, gaussSeidelMaxRelError)
    ensures run[|run| - 2] == run[|run| - 1] ==> Laws(z, cfs.Mlcp, mu, x[..], Residuals(cfs.Mlcp, b, x[..]))
  {
    hide Startable; hide PairStarts; hide Numbered; hide InScene; hide Reading; hide RelAccel; hide Valid; hide Fits; hide GaussSeidel.Swept; hide Laws; hide InCone;
    hide GaussSeidel.PositiveDiagonal; hide GaussSeidel.IsSqrt; hide SolverMatrix; hide Stopped; hide SolverEntry;
    b := Prepare(cfs, e, sc, f, dirs);
    DiagonalPositive(cfs.Mlcp, sc, f, dirs);
    var i;
    i, run := SolveMCPByProjectedGaussSeidel(z, cfs.Mlcp, b, mu, sqrt, x, mcpHi, norm, threshold, maxNumGaussSeidelIteration, gaussSeidelMaxRelError);
    SweepAdmissible(z, cfs.Mlcp, b, mu, sqrt, run[|run| - 2], x[..]);
    if run[|run| - 2] == run[|run| - 1] {
      FixedPoint(z, cfs.Mlcp, b, mu, sqrt, x[..]);
    }
  }

  lemma DiagonalPositive(M: array2<real>, sc: Scene, f: AllForces, dirs: seq<Dir>)
    requires Valid(sc) && Fits(sc, f) && forall k :: 0 <= k < |dirs| ==> InScene(sc, dirs[k])
    requires SolverMatrix(M, sc, f, dirs)
    ensures M.Length0 == M.Length1 == |dirs| && GaussSeidel.PositiveDiagonal(M)
  {
    hide SolverEntry; hide Valid; hide Fits; hide InScene;
    if dirs != [] { ClearedExactly(M, sc, f, dirs, 0); }
  }

  lemma LawsOfLinks(links: seq<seq<Link>>, z: GaussSeidel.Sizes, M: array2<real>, b: seq<real>, e: seq<real>, mu: seq<real>,
                    x: seq<real>, sc: Scene, f: AllForces, dirs: seq<Dir>)
    requires Valid(sc) && Fits(sc, f) && |links| == |sc.trees| && |x| == |dirs| == |b| == |e| == M.Length0 == M.Length1 == z.Total()
    requires z.nc <= z.n && |mu| == z.nc
    requires forall b :: 0 <= b < |links| ==> |links[b]| == |sc.trees[b].joints|
    requires forall k :: 0 <= k < |dirs| ==> InScene(sc, dirs[k])
    requires forall r :: 0 <= r < |dirs| ==> b[r] == RelAccel(sc, f, dirs[r]) + e[r] && RowMeasured(M, sc, f, dirs, r)
    requires forall k :: 0 <= k < |x| && GaussSeidel.Cleared(M, k) ==> x[k] == 0.0
    requires var f' := AlongAll(sc, f, dirs, x, |dirs|); forall b :: 0 <= b < |links| ==>
      Linked(links[b], sc.trees[b]) && Accels(links[b]) == Acc(sc.trees[b], f'[b], sc.solve)
    requires Laws(z, M, mu, x, Residuals(M, b, x))
    ensures Laws(z, M, mu, x, Believed(links, sc, f, dirs, e, x))
  {
    assert |sc.trees| == |sc.isStatic|;
    hide InScene; hide RelAccel; hide RowMeasured; hide Linked; hide Acc; hide AlongAll; hide Valid; hide Fits; hide Laws;
    forall r: nat | r < |dirs| ensures Residuals(M, b, x)[r] == Believed(links, sc, f, dirs, e, x)[r] {
      FinalIsResidual(links, M, b, e, x, sc, f, dirs, r);
    }
    LawsAgree(z, M, mu, x, Residuals(M, b, x), Believed(links, sc, f, dirs, e, x));
  }

  lemma BelievedIfRight(links: seq<seq<Link>>, pairs: seq<LinkPair>, n: nat, sc: Scene, f: AllForces, dirs: seq<Dir>, e: seq<real>,
                        x: seq<real>)
    requires Valid(sc) && Fits(sc, f) && |links| == |sc.trees| && |e| == |dirs| == |x|
    requires forall k :: 0 <= k < |dirs| ==> InScene(sc, dirs[k])
    requires forall b :: 0 <= b < |links| ==> |links[b]| == |sc.trees[b].joints|
    requires Numbered(pairs, 0, 0, 0, dirs, n)
    ensures FlagsRight(pairs) ==> Believed(links, sc, f, dirs, e, x) == Final(links, sc, dirs, e)
  {
    assert |sc.trees| == |sc.isStatic|;
    hide Measured; hide Valid; hide Fits; hide InScene; hide Numbered; hide MissedTimes;
    if FlagsRight(pairs) {
      MissNothing(pairs, n, sc, f, dirs, x);
    }
  }

  /** The whole step.  Its forces push, stay inside the friction cones and leave singular rows alone;
      and if the last sweep changed nothing, they and the accelerations the links end up with obey
      the laws of contact, but for what the tests missed: nothing, where the flags are right. */
  method SolveContacts(cfs: CFSImpl, fds: seq<ForwardDynamicsABM>, links: seq<seq<Link>>, z: GaussSeidel.Sizes, e: seq<real>,
                       mu: seq<real>,
                       x: array<real>, mcpHi: array<real>, sqrt: real -> real, norm: seq<real> -> real, threshold: real,
                       maxNumGaussSeidelIteration: nat, gaussSeidelMaxRelError: real,
                       ghost sc: Scene, ghost f: AllForces, ghost dirs: seq<Dir>)
    returns (ghost run: seq<seq<real>>)
    requires Shape(cfs.bodies, sc, f) && |fds| == |links| == |sc.trees| == |f| && Apart(links)
    requires cfs.solve == sc.solve && cfs.Sized(dirs) && x.Length == |e| == |dirs| == z.Total()
    requires z.nc <= z.n == cfs.globalNumConstraintVectors && mcpHi.Length == |mu| == z.nc && x != mcpHi
    requires GaussSeidel.IsSqrt(sqrt) && forall t :: 0 <= t < z.nc ==> mu[t] >= 0.0
    requires forall b :: 0 <= b < |fds| ==> fds[b].links == links[b] == cfs.bodies[b].links && fds[b].solve == sc.solve
    requires forall b :: 0 <= b < |links| ==> |links[b]| == |sc.trees[b].joints|
    requires forall b :: 0 <= b < |fds| ==> Startable(cfs.bodies[b], sc.trees[b], f[b]) && !cfs.bodies[b].isTestForceBeingApplied
    requires forall i :: 0 <= i < |cfs.constrainedLinkPairs| ==> PairStarts(cfs.constrainedLinkPairs[i], cfs.bodies, sc)
    requires forall k :: 0 <= k < |dirs| ==> InScene(sc, dirs[k])
    requires Numbered(cfs.constrainedLinkPairs, 0, 0, 0, dirs, cfs.globalNumConstraintVectors)
    modifies cfs`bodies, cfs`an0, cfs`at0, cfs`defaultAccel, cfs.Mlcp, x, mcpHi, AllLinks(links)
    ensures cfs.Sized(dirs) && SolverMatrix(cfs.Mlcp, sc, f, dirs) && GaussSeidel.PositiveDiagonal(cfs.Mlcp)
    ensures SameFlags(old(cfs.bodies), cfs.bodies)
    ensures forall j :: 0 <= j < z.nc ==> x[j] >= 0.0
    ensures forall t :: 0 <= t < z.nc ==> InCone(z, mu, x[..], t)
    ensures forall j :: 0 <= j < |dirs| && Reading(sc, f, dirs[j], dirs[j]) < SINGULAR ==> x[j] == 0.0
    ensures |run| >= 2 && run[0] == old(x[..]) && run[|run| - 1] == x[..]
    ensures Run(z, cfs.Mlcp, Constants(sc, f, dirs, e), mu, sqrt, run)
    ensures Stopped(run, norm, threshold, maxNumGaussSeidelIteration, gaussSeidelMaxRelError)
    ensures run[|run| - 2] == run[|run| - 1] ==> Laws(z, cfs.Mlcp, mu, x[..], Believed(links, sc, f, dirs, e, x[..]))
    ensures run[|run| - 2] == run[|run| - 1] && FlagsRight(cfs.constrainedLinkPairs)
      ==> Laws(z, cfs.Mlcp, mu, x[..], Final(links, sc, dirs, e))
    ensures Accelerated(links, sc, AlongAll(sc, f, dirs, x[..], |dirs|))
  {
    hide Startable; hide PairStarts; hide Numbered; hide InScene; hide Reading; hide RelAccel; hide Valid; hide Fits; hide BodyLinks; hide External;
    hide Laws; hide InCone; hide RowMeasured; hide GaussSeidel.IsSqrt; hide AlongAll; hide Linked; hide Acc; hide SolverMatrix; hide SolverEntry;
    hide Stopped; hide GaussSeidel.Swept; hide GaussSeidel.PositiveDiagonal; hide SameFlags; hide Apart; hide Shape; hide GaussSeidel.Cleared;
    SceneSizes(cfs.bodies, sc, f);
    StartAll(cfs, links, sc, f);
    var b;
    b, run := SolveForces(cfs, z, e, mu, x, mcpHi, sqrt, norm, threshold, maxNumGaussSeidelIteration, gaussSeidelMaxRelError, sc, f, dirs);
    ClearedRows(cfs.Mlcp, sc, f, dirs);
    AddAndAccelerate(fds, links, cfs.constrainedLinkPairs, x[..], cfs.globalNumConstraintVectors, sc, f, dirs);
    if run[|run| - 2] == run[|run| - 1] {
      LawsOfLinks(links, z, cfs.Mlcp, b, e, mu, x[..], sc, f, dirs);
      BelievedIfRight(links, cfs.constrainedLinkPairs, cfs.globalNumConstraintVectors, sc, f, dirs, e, x[..]);
    }
  }

  lemma SceneSizes(bodies: seq<BodyData>, sc: Scene, f: AllForces)
    requires Shape(bodies, sc, f)
    ensures Valid(sc) && Fits(sc, f) && |bodies| == |sc.trees| == |sc.isStatic| == |f|
  {
    hide Solves; hide Solvable;
  }

  lemma ClearedRows(M: array2<real>, sc: Scene, f: AllForces, dirs: seq<Dir>)
    requires Valid(sc) && Fits(sc, f) && forall k :: 0 <= k < |dirs| ==> InScene(sc, dirs[k])
    requires SolverMatrix(M, sc, f, dirs)
    ensures M.Length0 == M.Length1 == |dirs| && forall r :: 0 <= r < |dirs| ==> RowMeasured(M, sc, f, dirs, r)
    ensures forall r :: 0 <= r < |dirs| && Reading(sc, f, dirs[r], dirs[r]) < SINGULAR ==> GaussSeidel.Cleared(M, r)
  {
    hide SolverEntry; hide Valid; hide Fits; hide InScene; hide Reading; hide RowMeasured;
    forall r: nat | r < |dirs|
      ensures RowMeasured(M, sc, f, dirs, r) && (Reading(sc, f, dirs[r], dirs[r]) < SINGULAR ==> GaussSeidel.Cleared(M, r))
    {
      ClearedExactly(M, sc, f, dirs, r);
    }
  }
}
