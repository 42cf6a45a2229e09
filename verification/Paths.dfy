/** Way points, the interpolated path through them, and the shortcut optimizer. */
module Paths {
  import opened Mobility
  import opened Sequences

  /** Every hop can be travelled, and no way point between the ends collides. */
  ghost predicate Travelable(sp: Space, path: seq<Configuration>)
    requires Metric(sp)
  {
    Hops(sp, path) && forall i :: 0 < i < |path| - 1 ==> !sp.collides(path[i])
  }

  ghost predicate Hops(sp: Space, path: seq<Configuration>)
    requires Metric(sp)
  {
    forall i :: 0 < i < |path| ==> Reachable(sp, path[i - 1], path[i])
  }

  /** The way points joined by their samples, each way point once. */
  function Interpolated(sp: Space, path: seq<Configuration>): (r: seq<Configuration>)
    requires Metric(sp)
    ensures path != [] ==> r != [] && r[0] == path[0] && r[|r| - 1] == path[|path| - 1]
  {
    if |path| <= 1 then path else
    var local := Samples(sp, path[0], path[1]);
    local[..|local| - 1] + Interpolated(sp, path[1..])
  }

  /** Hop i of the path goes through q right after p. */
  ghost predicate Follow(sp: Space, path: seq<Configuration>, i: nat, j: nat, p: Configuration, q: Configuration)
    requires Metric(sp)
  {
    i + 1 < |path| && (var s := Samples(sp, path[i], path[i + 1]); j + 1 < |s| && s[j] == p && s[j + 1] == q)
  }

  ghost predicate Neighbours(sp: Space, path: seq<Configuration>, p: Configuration, q: Configuration)
    requires Metric(sp)
  {
    exists i: nat, j: nat :: Follow(sp, path, i, j, p, q)
  }

  /** Neighbours on the interpolated path are neighbouring samples of a hop, in the order of the hops. */
  lemma {:induction false} NeighboursAreSamples(sp: Space, path: seq<Configuration>, k: nat)
    requires Metric(sp) && k + 1 < |Interpolated(sp, path)|
    ensures var p, q := Interpolated(sp, path)[k], Interpolated(sp, path)[k + 1]; Neighbours(sp, path, p, q)
  {
    hide Samples;
    var r := Interpolated(sp, path);
    if |path| > 1 {
      var local, rest := Samples(sp, path[0], path[1]), Interpolated(sp, path[1..]);
      SamplesEnds(sp, path[0], path[1]);
      if k + 1 < |local| {
        assert r[k] == local[k];
        assert r[k + 1] == local[k + 1] by { if k + 1 == |local| - 1 { assert r[k + 1] == rest[0]; } }
        assert Follow(sp, path, 0, k, r[k], r[k + 1]);
      } else {
        var m: nat := k - (|local| - 1);
        NeighboursAreSamples(sp, path[1..], m);
        assert r[k] == rest[m] && r[k + 1] == rest[m + 1];
        var i: nat, j: nat :| Follow(sp, path[1..], i, j, rest[m], rest[m + 1]);
        assert path[1..][i] == path[i + 1] && path[1..][i + 1] == path[i + 2];
        assert Follow(sp, path, i + 1, j, r[k], r[k + 1]);
      }
    }
  }

  lemma SamplesEnds(sp: Space, from: Configuration, to: Configuration)
    requires Metric(sp)
    ensures var s := Samples(sp, from, to); |s| >= 2 && s[0] == from && s[|s| - 1] == to
  {}

  /** And every way point is on it. */
  lemma {:induction false} WayPointsOnPath(sp: Space, path: seq<Configuration>, i: nat)
    requires Metric(sp) && i < |path|
    ensures path[i] in Interpolated(sp, path)
  {
    hide Samples;
    if |path| > 1 {
      var local, rest := Samples(sp, path[0], path[1]), Interpolated(sp, path[1..]);
      SamplesEnds(sp, path[0], path[1]);
      var r := Interpolated(sp, path);
      if i == 0 {
        assert r[0] == path[0];
      } else {
        WayPointsOnPath(sp, path[1..], i - 1);
        var m :| 0 <= m < |rest| && rest[m] == path[1..][i - 1];
        assert r[|local| - 1 + m] == rest[m];
      }
    }
  }

  method FinalPath(sp: Space, path: seq<Configuration>) returns (finalPath: seq<Configuration>)
    requires Metric(sp)
    ensures finalPath == Interpolated(sp, path)
  {
    hide Interpolated; hide Samples; hide Metric;
    finalPath := [];
    if |path| == 0 {
      NoHop(sp, path);
      return;
    }
    assert path[0..] == path;
    ghost var whole := Interpolated(sp, path);
    for i := 0 to |path| - 1
      invariant finalPath + Interpolated(sp, path[i..]) == whole
    {
      var local := GetPath(sp, path[i], path[i + 1]);
      NextHop(sp, path, i);
      Regroup(finalPath, local[..|local| - 1], Interpolated(sp, path[i + 1..]));
      finalPath := finalPath + local[..|local| - 1];
    }
    LastHop(sp, path);
    finalPath := finalPath + [path[|path| - 1]];
  }

  lemma NoHop(sp: Space, path: seq<Configuration>)
    requires Metric(sp) && path == []
    ensures Interpolated(sp, path) == []
  {}

  lemma NextHop(sp: Space, path: seq<Configuration>, i: nat)
    requires Metric(sp) && i + 1 < |path|
    ensures var local := Samples(sp, path[i], path[i + 1]);
      Interpolated(sp, path[i..]) == local[..|local| - 1] + Interpolated(sp, path[i + 1..])
  {
    assert path[i..][1..] == path[i + 1..];
  }

  lemma LastHop(sp: Space, path: seq<Configuration>)
    requires Metric(sp) && path != []
    ensures Interpolated(sp, path[|path| - 1..]) == [path[|path| - 1]]
  {}

  /** The whole motion is collision-free between its ends. */
  lemma {:induction false} TravelableIsFree(sp: Space, path: seq<Configuration>)
    requires Metric(sp) && Travelable(sp, path)
    ensures !InteriorCollides(sp, Interpolated(sp, path))
  {
    if |path| > 1 {
      var local, rest := Samples(sp, path[0], path[1]), Interpolated(sp, path[1..]);
      forall i | 0 < i < |path[1..]| ensures Reachable(sp, path[1..][i - 1], path[1..][i]) {
        assert Reachable(sp, path[i], path[i + 1]);
      }
      TravelableIsFree(sp, path[1..]);
      var r := Interpolated(sp, path);
      assert Reachable(sp, path[0], path[1]);
      forall k | 0 < k < |r| - 1 ensures !sp.collides(r[k]) {
        if k < |local| - 1 {
          assert r[k] == local[k];
        } else {
          assert r[k] == rest[k - (|local| - 1)];
        }
      }
    }
  }

  ghost predicate Rising(s: seq<nat>) { forall i, j :: 0 <= i < j < |s| ==> s[i] < s[j] }

  /** opt consists of the way points of path listed by kept, the ends among them. */
  ghost predicate Subpath(path: seq<Configuration>, opt: seq<Configuration>, kept: seq<nat>) {
    && |opt| == |kept| && (path == [] <==> opt == [])
    && (forall i :: 0 <= i < |kept| ==> kept[i] < |path| && opt[i] == path[kept[i]])
    && Rising(kept)
    && (path != [] ==> kept[0] == 0 && kept[|kept| - 1] == |path| - 1)
  }

  lemma {:induction false} Increasing(s: seq<nat>, k: nat)
    requires k < |s| && Rising(s)
    ensures k <= s[k]
  {
    if k > 0 { Increasing(s, k - 1); }
  }

  lemma {:induction false} RoomAfter(s: seq<nat>, k: nat)
    requires k < |s| && Rising(s)
    ensures s[k] + |s| - 1 - k <= s[|s| - 1]
    decreases |s| - k
  {
    if k + 1 < |s| { RoomAfter(s, k + 1); }
  }

  lemma SubpathEnds(path: seq<Configuration>, opt: seq<Configuration>, kept: seq<nat>)
    requires Subpath(path, opt, kept) && path != []
    ensures opt != [] && opt[0] == path[0] && opt[|opt| - 1] == path[|path| - 1] && |opt| <= |path|
    ensures forall i :: 0 <= i < |opt| ==> opt[i] in path
  {
    Increasing(kept, |kept| - 1);
  }

  lemma Dropped(path: seq<Configuration>, opt: seq<Configuration>, kept: seq<nat>, k: nat)
    requires Subpath(path, opt, kept) && 0 < k < |opt| - 1
    ensures Subpath(path, opt[..k] + opt[k + 1..], kept[..k] + kept[k + 1..])
  {}

  lemma HopsDropped(sp: Space, opt: seq<Configuration>, k: nat)
    requires Metric(sp) && Hops(sp, opt) && 0 < k < |opt| - 1 && Reachable(sp, opt[k - 1], opt[k + 1])
    ensures Hops(sp, opt[..k] + opt[k + 1..])
  {
    hide Reachable; hide Metric;
    var r := opt[..k] + opt[k + 1..];
    forall i | 0 < i < |r| ensures Reachable(sp, r[i - 1], r[i]) {
      if i < k { assert Reachable(sp, opt[i - 1], opt[i]); }
      else if i > k { assert Reachable(sp, opt[i], opt[i + 1]); }
    }
  }

  lemma SubpathFree(sp: Space, path: seq<Configuration>, opt: seq<Configuration>, kept: seq<nat>)
    requires Metric(sp) && Travelable(sp, path) && Subpath(path, opt, kept)
    ensures forall i :: 0 < i < |opt| - 1 ==> !sp.collides(opt[i])
  {
    forall i | 0 < i < |opt| - 1 ensures !sp.collides(opt[i]) {
      assert 0 == kept[0] < kept[i] < kept[|kept| - 1];
    }
  }

  /** The way point numbered j can be skipped on the way from an earlier one. */
  ghost predicate CanSkip(sp: Space, path: seq<Configuration>, from: nat, j: nat)
    requires Metric(sp) && from < |path|
  {
    j + 1 < |path| && Reachable(sp, path[from], path[j + 1])
  }

  /** Which way points are kept before the one numbered index: all between two kept ones can be skipped on
      the way from the first, and no kept one can; from index on, all are still there. */
  ghost predicate SkippedTo(sp: Space, path: seq<Configuration>, kept: seq<nat>, index: nat)
    requires Metric(sp)
  {
    && 1 <= index < |kept| <= |path| && (forall i :: 0 <= i < |kept| ==> kept[i] < |path|)
    && (forall i, j :: 0 <= i < index && kept[i] < j < kept[i + 1] ==> CanSkip(sp, path, kept[i], j))
    && (forall i :: 0 <= i < index - 1 ==> !CanSkip(sp, path, kept[i], kept[i + 1]))
    && (forall i :: index <= i < |kept| ==> kept[i] == |path| - |kept| + i)
  }

  /** A way point is skipped exactly if the next one can be reached from the last one kept. */
  ghost predicate Skipped(sp: Space, path: seq<Configuration>, kept: seq<nat>)
    requires Metric(sp)
  {
    if |path| < 3 then kept == seq(|path|, i => i) else |kept| >= 2 && kept[0] == 0 && SkippedTo(sp, path, kept, |kept| - 1)
  }

  lemma SkipOne(sp: Space, path: seq<Configuration>, kept: seq<nat>, index: nat)
    requires Metric(sp) && SkippedTo(sp, path, kept, index) && index < |kept| - 1
    requires Reachable(sp, path[kept[index - 1]], path[kept[index + 1]])
    ensures SkippedTo(sp, path, kept[..index] + kept[index + 1..], index)
  {
    hide Metric; hide Reachable;
    var now := kept[..index] + kept[index + 1..];
    forall i, j | 0 <= i < index && now[i] < j < now[i + 1] ensures CanSkip(sp, path, now[i], j) {
      assert now[i] == kept[i];
    }
  }

  lemma KeepOne(sp: Space, path: seq<Configuration>, kept: seq<nat>, index: nat)
    requires Metric(sp) && SkippedTo(sp, path, kept, index) && index < |kept| - 1
    requires !Reachable(sp, path[kept[index - 1]], path[kept[index + 1]])
    ensures SkippedTo(sp, path, kept, index + 1)
  {
    hide Metric; hide Reachable;
  }

  /** That leaves one choice of way points only. */
  lemma SkippedOneWay(sp: Space, path: seq<Configuration>, kept: seq<nat>, kept': seq<nat>)
    requires Metric(sp) && Skipped(sp, path, kept) && Skipped(sp, path, kept')
    requires Rising(kept) && Rising(kept')
    ensures kept == kept'
  {
    hide Metric; hide Reachable; hide CanSkip;
    if |path| >= 3 {
      if |kept| <= |kept'| {
        SameKept(sp, path, kept, kept', |kept|);
        LastOnly(path, kept, kept');
      } else {
        SameKept(sp, path, kept', kept, |kept'|);
        LastOnly(path, kept', kept);
      }
    }
  }

  lemma LastOnly(path: seq<Configuration>, kept: seq<nat>, kept': seq<nat>)
    requires 0 < |kept| <= |kept'| && kept == kept'[..|kept|] && kept[|kept| - 1] == |path| - 1
    requires Rising(kept') && forall i :: 0 <= i < |kept'| ==> kept'[i] < |path|
    ensures kept == kept'
  {
    var n := |kept|;
    assert kept'[n - 1] == kept[n - 1];
    RoomAfter(kept', n - 1);
  }

  lemma {:induction false} SameKept(sp: Space, path: seq<Configuration>, kept: seq<nat>, kept': seq<nat>, k: nat)
    requires Metric(sp) && |path| >= 3 && Skipped(sp, path, kept) && Skipped(sp, path, kept') && k <= |kept| <= |kept'|
    requires Rising(kept) && Rising(kept')
    ensures kept[..k] == kept'[..k]
  {
    hide Metric; hide Reachable; hide CanSkip;
    if k > 0 {
      SameKept(sp, path, kept, kept', k - 1);
      if k > 1 { SameNext(sp, path, kept, kept', k - 2); }
      assert kept[..k] == kept[..k - 1] + [kept[k - 1]] && kept'[..k] == kept'[..k - 1] + [kept'[k - 1]];
    }
  }

  lemma SameNext(sp: Space, path: seq<Configuration>, kept: seq<nat>, kept': seq<nat>, i: nat)
    requires Metric(sp) && |path| >= 3 && Skipped(sp, path, kept) && Skipped(sp, path, kept') && i + 1 < |kept| <= |kept'|
    requires kept[..i + 1] == kept'[..i + 1]
    requires Rising(kept) && Rising(kept')
    ensures kept[i + 1] == kept'[i + 1]
  {
    hide Metric; hide Reachable; hide CanSkip;
    assert kept[..i + 1][i] == kept'[..i + 1][i];
  }

  /** Drops way points that can be skipped: each exactly if the next one can be reached from the last one
      kept.  The path keeps its ends and runs through way points of the original in their order, and if it
      was travelable it still is. */
  method Optimize(sp: Space, path: seq<Configuration>) returns (optimized: seq<Configuration>, ghost kept: seq<nat>)
    requires Metric(sp)
    ensures Subpath(path, optimized, kept) && (Travelable(sp, path) ==> Travelable(sp, optimized))
    ensures Skipped(sp, path, kept)
  {
    optimized := path;
    kept := seq(|path|, i => i);
    assert Subpath(path, optimized, kept);
    if |path| < 3 { return; }
    hide Reachable; hide Metric; hide Hops; hide Subpath;
    var index := 1;
    while index != |optimized| - 1
      invariant 1 <= index <= |optimized| - 1
      invariant Subpath(path, optimized, kept) && SkippedTo(sp, path, kept, index) && |kept| == |optimized|
      invariant Hops(sp, path) ==> Hops(sp, optimized)
      decreases |optimized| - index
    {
      var skip := IsReachable(sp, optimized[index - 1], optimized[index + 1]);
      SubpathAt(path, optimized, kept, index - 1);
      SubpathAt(path, optimized, kept, index + 1);
      if skip {
        SkipOne(sp, path, kept, index);
        Dropped(path, optimized, kept, index);
        if Hops(sp, path) { HopsDropped(sp, optimized, index); }
        kept := kept[..index] + kept[index + 1..];
        optimized := optimized[..index] + optimized[index + 1..];
      } else {
        KeepOne(sp, path, kept, index);
        index := index + 1;
      }
    }
    SubpathEnds(path, optimized, kept);
    if Travelable(sp, path) { SubpathFree(sp, path, optimized, kept); }
  }

  lemma SubpathAt(path: seq<Configuration>, opt: seq<Configuration>, kept: seq<nat>, k: nat)
    requires Subpath(path, opt, kept) && k < |opt|
    ensures kept[0] == 0 && kept[k] < |path| && opt[k] == path[kept[k]]
  {}
}
