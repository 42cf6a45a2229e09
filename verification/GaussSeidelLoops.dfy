/** The loops around the sweep. */
module GaussSeidelLoops {
  import opened Reals
  import opened GaussSeidel

// ---- the outer loops ------------------------------------------------------------------------

  /** The vectors of a run of sweeps, each obtained from the one before by one sweep. */
  ghost predicate Run(z: Sizes, M: array2<real>, b: seq<real>, mu: seq<real>, sqrt: real -> real, run: seq<seq<real>>)
    requires Fits(z, M, b, mu) && PositiveDiagonal(M) && IsSqrt(sqrt)
    reads M
  {
    && |run| > 0
    && (forall k :: 0 <= k < |run| ==> |run[k]| == z.Total())
    && (forall k :: 0 < k < |run| ==> Swept(z, M, b, mu, sqrt, run[k - 1], run[k]))
  }

  method Sweeps(z: Sizes, M: array2<real>, b: seq<real>, mu: seq<real>, sqrt: real -> real, x: array<real>, mcpHi: array<real>,
                numIteration: nat,
                ghost before: seq<seq<real>>)
    returns (ghost run: seq<seq<real>>)
    requires Fits(z, M, b, mu) && PositiveDiagonal(M) && IsSqrt(sqrt)
    requires x.Length == z.Total() && mcpHi.Length == z.nc && x != mcpHi
    requires Run(z, M, b, mu, sqrt, before) && before[|before| - 1] == x[..]
    modifies x, mcpHi
    ensures Run(z, M, b, mu, sqrt, run) && |run| == |before| + numIteration
    ensures run[..|before|] == before && run[|run| - 1] == x[..]
  {
    hide Swept; hide PositiveDiagonal; hide IsSqrt;
    run := before;
    for i := 0 to numIteration
      invariant Run(z, M, b, mu, sqrt, run) && |run| == |before| + i
      invariant run[..|before|] == before && run[|run| - 1] == x[..]
    {
      Sweep(z, M, b, mu, sqrt, x, mcpHi);
      run := run + [x[..]];
    }
  }

  const LOOP_BLOCK_SIZE: nat := 10

  /** As many whole blocks as the allowed sweeps fill, but at least one. */
  function NumBlockLoops(maxNumGaussSeidelIteration: nat): (r: nat)
    ensures r >= 1 && maxNumGaussSeidelIteration < 10 * (r + 1) && (10 * r <= maxNumGaussSeidelIteration || r == 1)
  {
    if maxNumGaussSeidelIteration / LOOP_BLOCK_SIZE == 0 then 1 else maxNumGaussSeidelIteration / LOOP_BLOCK_SIZE
  }

  /** The stopping rule; norm stands for the Euclidean norm. */
  function RelError(norm: seq<real> -> real, threshold: real, x0: seq<real>, x: seq<real>): real
    requires |x0| == |x|
  {
    var d := norm(seq(|x|, i requires 0 <= i < |x| => x[i] - x0[i]));
    if norm(x) > threshold && norm(x) != 0.0 then d / norm(x) else d
  }

  /** So the last sweep moved x little: by less than e times its length, or less than e if that is short. */
  lemma MovedLittle(norm: seq<real> -> real, threshold: real, x0: seq<real>, x: seq<real>, e: real)
    requires |x0| == |x| && threshold >= 0.0
    ensures var d := norm(seq(|x|, i requires 0 <= i < |x| => x[i] - x0[i]));
      RelError(norm, threshold, x0, x) < e <==> if norm(x) > threshold then d < e * norm(x) else d < e
  {
    var d, n := norm(seq(|x|, i requires 0 <= i < |x| => x[i] - x0[i])), norm(x);
    if n > threshold { LessByQuotient(d, n, e); }
  }

  lemma LessByQuotient(d: real, n: real, e: real)
    requires n > 0.0
    ensures d / n < e <==> d < e * n
  {
    var q := d / n;
    assert q * n == d;
    if q < e { PositiveProduct(e - q, n); } else if q > e { PositiveProduct(q - e, n); }
  }

  /** A run of whole blocks of ten sweeps, stopped at the first block whose last sweep moved x by less
      than the bound, or after the last block. */
  ghost predicate Stopped(run: seq<seq<real>>, norm: seq<real> -> real, threshold: real, maxNumGaussSeidelIteration: nat,
                          gaussSeidelMaxRelError: real)
    requires |run| > 1 && forall k :: 0 <= k < |run| ==> |run[k]| == |run[0]|
  {
    var i := (|run| - 1) / 10;
    && |run| == 10 * i + 1 && 1 <= i <= NumBlockLoops(maxNumGaussSeidelIteration)
    && (i < NumBlockLoops(maxNumGaussSeidelIteration) ==> RelError(norm, threshold, run[10 * i - 1], run[10 * i]) < gaussSeidelMaxRelError)
    && forall k :: 1 <= k < i ==> RelError(norm, threshold, run[10 * k - 1], run[10 * k]) >= gaussSeidelMaxRelError
  }

  /** Blocks of ten sweeps until the last sweep of a block moves x little enough. A stop before the
      last block is one whose last sweep did. */
  method SolveMCPByProjectedGaussSeidel(z: Sizes, M: array2<real>, b: seq<real>, mu: seq<real>, sqrt: real -> real,
                                        x: array<real>, mcpHi: array<real>,
                                        norm: seq<real> -> real, threshold: real, maxNumGaussSeidelIteration: nat, gaussSeidelMaxRelError: real)
    returns (i: nat, ghost run: seq<seq<real>>)
    requires Fits(z, M, b, mu) && PositiveDiagonal(M) && IsSqrt(sqrt)
    requires x.Length == z.Total() && mcpHi.Length == z.nc && x != mcpHi
    modifies x, mcpHi
    ensures 1 <= i && |run| == 10 * i + 1 && run[0] == old(x[..]) && run[|run| - 1] == x[..]
    ensures Run(z, M, b, mu, sqrt, run) && Stopped(run, norm, threshold, maxNumGaussSeidelIteration, gaussSeidelMaxRelError)
  {
    hide Swept; hide PositiveDiagonal; hide IsSqrt; hide RelError;
    var numBlockLoops := NumBlockLoops(maxNumGaussSeidelIteration);
    i := 0;
    run := [x[..]];
    while i < numBlockLoops
      invariant 0 <= i <= numBlockLoops
      invariant Run(z, M, b, mu, sqrt, run) && |run| == 10 * i + 1 && run[0] == old(x[..]) && run[10 * i] == x[..]
      invariant forall k :: 1 <= k <= i ==> RelError(norm, threshold, run[10 * k - 1], run[10 * k]) >= gaussSeidelMaxRelError
    {
      i := i + 1;
      ghost var was := run;
      run := Sweeps(z, M, b, mu, sqrt, x, mcpHi, LOOP_BLOCK_SIZE - 1, run);
      var x0 := x[..];
      run := Sweeps(z, M, b, mu, sqrt, x, mcpHi, 1, run);
      assert run[..|was|] == was;
      assert forall k :: 0 <= k < |was| ==> run[k] == was[k];
      if RelError(norm, threshold, x0, x[..]) < gaussSeidelMaxRelError { break; }
    }
  }
}
