/** The planner around an RRT: checking the ends, trying the straight way first, interpolating and
    optimizing the result. */
module PathPlanner {
  import opened Mobility
  import opened Paths
  import opened RRT
  import opened TreeGrowth

  class PathPlanner {
    const sp: Space
    const isValid: Configuration -> bool
    const ignoreCollisionAtStart: bool
    const ignoreCollisionAtGoal: bool
    var path: seq<Configuration>

    constructor (sp: Space, isValid: Configuration -> bool, ignoreCollisionAtStart: bool, ignoreCollisionAtGoal: bool)
      ensures this.sp == sp && this.isValid == isValid && path == []
      ensures this.ignoreCollisionAtStart == ignoreCollisionAtStart && this.ignoreCollisionAtGoal == ignoreCollisionAtGoal
    {
      this.sp, this.isValid := sp, isValid;
      this.ignoreCollisionAtStart, this.ignoreCollisionAtGoal := ignoreCollisionAtStart, ignoreCollisionAtGoal;
      path := [];
    }

    /** The ends are valid, and free unless that is not asked for. */
    predicate EndsFit(start: Configuration, goal: Configuration) {
      && isValid(start) && isValid(goal)
      && (ignoreCollisionAtStart || !sp.collides(start)) && (ignoreCollisionAtGoal || !sp.collides(goal))
    }

    method PreparePlanning(start: Configuration, goal: Configuration) returns (ready: bool)
      ensures ready <==> EndsFit(start, goal)
    {
      if !isValid(start) { return false; }
      if !ignoreCollisionAtStart && sp.collides(start) { return false; }
      if !isValid(goal) { return false; }
      if !ignoreCollisionAtGoal && sp.collides(goal) { return false; }
      return true;
    }

    /** Every configuration of the interpolated motion is free, but for an end whose collision is to be ignored. */
    ghost predicate SafeFromTo(start: Configuration, goal: Configuration)
      requires Metric(sp)
      reads this
    {
      var motion := Interpolated(sp, path);
      && motion != [] && motion[0] == start && motion[|motion| - 1] == goal
      && forall k :: 0 <= k < |motion| && sp.collides(motion[k]) ==>
           (k == 0 && ignoreCollisionAtStart) || (k == |motion| - 1 && ignoreCollisionAtGoal)
    }

    lemma TravelableIsSafe(start: Configuration, goal: Configuration)
      requires Metric(sp) && Travelable(sp, path) && path != [] && path[0] == start && path[|path| - 1] == goal && EndsFit(start, goal)
      ensures SafeFromTo(start, goal)
    {
      TravelableIsFree(sp, path);
    }

    /** Planning from start to goal with a fresh RRT.  ok is false where the source crashes. */
    method CalcPath(rrt: RRT, times: nat, draws: nat -> Configuration) returns (found: bool, ok: bool)
      requires Fit(rrt.Asked()) && rrt.sp == sp
      requires rrt.Tstart != rrt.Tgoal && rrt.Ta == rrt.Tstart && rrt.Tb == rrt.Tgoal && rrt.Tstart.nodes == [] && rrt.Tgoal.nodes == []
      modifies this`path, rrt`path, rrt`Ta, rrt`Tb, rrt.Tstart, rrt.Tgoal
      ensures found ==> ok && EndsFit(rrt.start, rrt.goal) && Travelable(sp, path)
      ensures found ==> path != [] && path[0] == rrt.start && path[|path| - 1] == rrt.goal && SafeFromTo(rrt.start, rrt.goal)
      ensures EndsFit(rrt.start, rrt.goal) && Reachable(sp, rrt.start, rrt.goal) ==> found && path == [rrt.start, rrt.goal]
      ensures found <==> EndsFit(rrt.start, rrt.goal) && (Reachable(sp, rrt.start, rrt.goal) || Searched(rrt.Asked(), draws, times).found)
      ensures ok <==> !EndsFit(rrt.start, rrt.goal) || Reachable(sp, rrt.start, rrt.goal) || Readable(rrt.Asked(), Searched(rrt.Asked(), draws, times).trees)
    {
      hide Metric; hide Approaches; hide Reachable;
      path := [];
      var ready := PreparePlanning(rrt.start, rrt.goal);
      if !ready { return false, true; }
      var direct := IsReachable(sp, rrt.start, rrt.goal);
      if direct {
        path := [rrt.start, rrt.goal];
        TravelableIsSafe(rrt.start, rrt.goal);
        return true, true;
      }
      hide Travelable; hide SafeFromTo; hide Searched;
      found, ok := rrt.CalcPath(times, draws);
      if found {
        path := rrt.path;
        TravelableIsSafe(rrt.start, rrt.goal);
      }
    }

    /** Shortcutting drops exactly the way points that can be skipped, and keeps the motion safe, with the same ends. */
    method Optimize(ghost start: Configuration, ghost goal: Configuration) returns (ghost kept: seq<nat>)
      requires Metric(sp) && path != [] && path[0] == start && path[|path| - 1] == goal
      modifies this`path
      ensures path != [] && path[0] == start && path[|path| - 1] == goal
      ensures Subpath(old(path), path, kept) && Skipped(sp, old(path), kept)
      ensures Travelable(sp, old(path)) ==> Travelable(sp, path) && (EndsFit(start, goal) ==> SafeFromTo(start, goal))
    {
      hide Metric; hide Travelable; hide SafeFromTo; hide EndsFit; hide Subpath; hide Skipped;
      ghost var was := path;
      path, kept := Paths.Optimize(sp, path);
      SubpathEnds(was, path, kept);
      if Travelable(sp, was) && EndsFit(start, goal) { TravelableIsSafe(start, goal); }
    }

    method GetPath() returns (finalPath: seq<Configuration>)
      requires Metric(sp)
      ensures finalPath == Interpolated(sp, path)
    {
      finalPath := FinalPath(sp, path);
    }
  }
}
