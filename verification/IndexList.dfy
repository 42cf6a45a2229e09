/** Triangle index lists: groups of three indices, each closed by -1. */
module IndexList {
  function AddTriangle(indices: seq<int>, x: int, y: int, z: int): seq<int> { indices + [x, y, z, -1] }

  /** Entry m of the k-th group. */
  function Cell(indices: seq<int>, k: nat, m: nat): int
    requires m < 4 && 4 * k + 4 <= |indices|
  {
    indices[4 * k + m]
  }
}
