/** Matrix rows times vectors. */
module Matrix {
  /** The first k terms of row j of M times v. */
  function RowDot(M: array2<real>, j: nat, v: seq<real>, k: nat): real
    requires j < M.Length0 && k <= |v| <= M.Length1
    reads M
  {
    if k == 0 then 0.0 else RowDot(M, j, v, k - 1) + M[j, k - 1] * v[k - 1]
  }
}
