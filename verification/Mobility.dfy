/** Local motion: interpolated samples between two configurations, and the collision check that
    visits them in strides. */
module Mobility {
  import opened Reals
  import opened Sequences

  type Configuration = seq<real>

  /** What the planner is given: a way to move, and a collision detector. */
  datatype Space = Space(distance: (Configuration, Configuration) -> real,
                         interpolate: (Configuration, Configuration, real) -> Configuration,
                         collides: Configuration -> bool,
                         interpolationDistance: real,
                         isReversible: bool)

  ghost predicate Metric(sp: Space) {
    sp.interpolationDistance > 0.0 && forall a, b :: sp.distance(a, b) >= 0.0
  }

  /** The number of steps from one configuration to another. */
  function Steps(sp: Space, from: Configuration, to: Configuration): (n: nat)
    requires Metric(sp)
    ensures n >= 1
  {
    (sp.distance(from, to) / sp.interpolationDistance).Floor + 1
  }

  /** Just so many that the interpolation distance is not exceeded. */
  lemma StepsFit(sp: Space, from: Configuration, to: Configuration)
    requires Metric(sp)
    ensures (Steps(sp, from, to) - 1) as real * sp.interpolationDistance <= sp.distance(from, to)
    ensures sp.distance(from, to) < Steps(sp, from, to) as real * sp.interpolationDistance
  {
    Between(sp.distance(from, to), sp.interpolationDistance, Steps(sp, from, to));
  }

  lemma Between(total: real, d: real, n: int)
    requires d > 0.0 && n == (total / d).Floor + 1
    ensures (n - 1) as real * d <= total && total < n as real * d
  {
    var x := total / d;
    assert x * d == total;
    Bracket(x, n as real, d, total);
    Bracket(x, (n - 1) as real, d, total);
  }

  lemma Bracket(x: real, n: real, d: real, total: real)
    requires d > 0.0 && x * d == total
    ensures n <= x ==> n * d <= total
    ensures x < n ==> total < n * d
  {
    if n <= x { NotLess(x - n, d); } else { PositiveProduct(n - x, d); }
  }

  lemma NotLess(a: real, d: real)
    requires a >= 0.0 && d > 0.0
    ensures a * d >= 0.0
  {}

  function Sample(sp: Space, from: Configuration, to: Configuration, n: nat, i: nat): Configuration
    requires 0 < n
  {
    if i == 0 then from else if i == n then to else sp.interpolate(from, to, i as real / n as real)
  }

  /** The samples of the motion, both ends included. */
  function Samples(sp: Space, from: Configuration, to: Configuration): (path: seq<Configuration>)
    requires Metric(sp)
    ensures |path| == Steps(sp, from, to) + 1 >= 2 && path[0] == from && path[|path| - 1] == to
  {
    var n := Steps(sp, from, to);
    seq(n + 1, i requires 0 <= i <= n => Sample(sp, from, to, n, i))
  }

  method GetPath(sp: Space, from: Configuration, to: Configuration) returns (path: seq<Configuration>)
    requires Metric(sp)
    ensures path == Samples(sp, from, to)
  {
    path := [from];
    var n := (sp.distance(from, to) / sp.interpolationDistance).Floor + 1;
    for i := 1 to n
      invariant path == Samples(sp, from, to)[..i]
    {
      path := path + [sp.interpolate(from, to, i as real / n as real)];
    }
    path := path + [to];
  }

  // ---- the strided collision check --------------------------------------------------------------

  /** Some configuration other than the first and the last collides. */
  ghost predicate InteriorCollides(sp: Space, path: seq<Configuration>) {
    exists i :: 0 < i < |path| - 1 && sp.collides(path[i])
  }

  /** tested lists, without repetition, the interior indices marked as visited, none of which collides. */
  ghost predicate Progress(sp: Space, path: seq<Configuration>, isVisited: seq<bool>, tested: seq<int>, checked: nat) {
    && |isVisited| == |path| >= 1 && isVisited[|path| - 1] && checked == 1 + |tested| && AllDistinct(tested)
    && (forall i :: 0 <= i < |tested| ==> 0 < tested[i] < |path| - 1)
    && (forall i :: 0 <= i < |path| - 1 ==> (isVisited[i] <==> i in tested))
    && (forall i :: 0 <= i < |tested| ==> !sp.collides(path[tested[i]]))
  }

  /** Visits every step-th configuration that was not visited yet. */
  method Stride(sp: Space, path: seq<Configuration>, step: nat, isVisited: array<bool>, checked: nat, ghost tested: seq<int>)
    returns (r: bool, checked': nat, ghost tested': seq<int>)
    requires step > 0 && isVisited.Length == |path| && Progress(sp, path, isVisited[..], tested, checked)
    modifies isVisited
    ensures Tested(path, tested')
    ensures r ==> InteriorCollides(sp, path)
    ensures !r ==> Progress(sp, path, isVisited[..], tested', checked')
    ensures !r ==> forall i :: 0 <= i < |path| && old(isVisited[i]) ==> isVisited[i]
    ensures !r && step == 1 ==> forall i :: 0 < i < |path| ==> isVisited[i]
  {
    checked', tested' := checked, tested;
    var i := step;
    while i < |path|
      invariant i >= step
      invariant Progress(sp, path, isVisited[..], tested', checked')
      invariant forall k :: 0 <= k < |path| && old(isVisited[k]) ==> isVisited[k]
      invariant step == 1 ==> forall k :: 0 < k < i && k < |path| ==> isVisited[k]
    {
      if !isVisited[i] {
        checked' := checked' + 1;
        tested' := tested' + [i];
        if sp.collides(path[i]) {
          return true, checked', tested';
        }
        isVisited[i] := true;
      }
      i := i + step;
    }
    r := false;
  }

  ghost predicate Tested(path: seq<Configuration>, tested: seq<int>) {
    AllDistinct(tested) && forall i :: 0 <= i < |tested| ==> 0 < tested[i] < |path| - 1
  }

  /** True exactly when a configuration strictly between the ends collides.  Each of them is tested
      at most once, no stride is ever zero, and when it finds nothing all of them were tested. */
  method CheckCollision(sp: Space, path: seq<Configuration>) returns (r: bool, ghost tested: seq<int>)
    requires |path| >= 1
    ensures r <==> InteriorCollides(sp, path)
    ensures Tested(path, tested)
    ensures !r ==> forall i :: 0 < i < |path| - 1 ==> i in tested
  {
    var checked: nat, div: nat := 1, 2;
    var isVisited := new bool[|path|](i => i == |path| - 1);
    tested := [];
    assert Progress(sp, path, isVisited[..], tested, checked);
    hide Progress; hide Tested; hide InteriorCollides;
    while checked < |path| - 1 || |path| / div > 0
      invariant 2 <= div
      invariant Progress(sp, path, isVisited[..], tested, checked)
      invariant div > |path| ==> forall i :: 0 < i < |path| ==> isVisited[i]
      decreases |path| + 2 - div
    {
      if div > |path| {
        Finished(sp, path, isVisited[..], tested, checked);
        NoStride(|path|, div);
      }
      StrideFits(|path|, div);
      var step := |path| / div;
      r, checked, tested := Stride(sp, path, step, isVisited, checked, tested);
      if r { return; }
      div := div + 1;
    }
    if div <= |path| { StrideFits(|path|, div); }
    Finished(sp, path, isVisited[..], tested, checked);
    r := false;
  }

  lemma NoStride(n: nat, div: nat)
    requires n < div
    ensures n / div == 0
  {}

  lemma StrideFits(n: nat, div: nat)
    requires 2 <= div <= n
    ensures n / div > 0 && (div == n ==> n / div == 1)
  {}

  /** Once everything is visited, the counter says so: the loop does not go on to a stride of zero. */
  lemma Finished(sp: Space, path: seq<Configuration>, isVisited: seq<bool>, tested: seq<int>, checked: nat)
    requires Progress(sp, path, isVisited, tested, checked) && forall i :: 0 < i < |isVisited| ==> isVisited[i]
    ensures checked == if |path| == 1 then 1 else |path| - 1
    ensures !InteriorCollides(sp, path) && Tested(path, tested) && forall i :: 0 < i < |path| - 1 ==> i in tested
  {
    forall i | 0 < i < |path| - 1 ensures i in tested && !sp.collides(path[i]) { assert isVisited[i]; }
    RangeSize(tested, 1, if |path| > 1 then |path| - 1 else 1);
  }

  /** The robot can move straight from one configuration to the other. */
  ghost predicate Reachable(sp: Space, from: Configuration, to: Configuration)
    requires Metric(sp)
  {
    !InteriorCollides(sp, Samples(sp, from, to))
  }

  method IsReachable(sp: Space, from: Configuration, to: Configuration) returns (r: bool)
    requires Metric(sp)
    ensures r <==> Reachable(sp, from, to)
  {
    var path := GetPath(sp, from, to);
    var hit, _ := CheckCollision(sp, path);
    r := !hit;
  }
}
