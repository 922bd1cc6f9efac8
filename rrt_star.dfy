/**
 * `RrtStar` (rrt_2D/rrt_star.py): the planner's bookkeeping over its vertex list. Random
 * sampling is replaced by a finite list of sampled points, and `new_state`, the search
 * radius term and the obstacle test are parameters of the planner.
 */
module RrtStarPlanner {
  import opened Wrappers
  import opened RrtTree

  /** `[get_new_cost(vertex[i], node_new) for i in neighbor_index]`. */
  ghost function NewCosts(t: seq<Node>, nbrs: seq<nat>, hub: nat, dist: Dist): (cs: seq<real>)
    requires Acyclic(t) && AllBelow(nbrs, |t|) && hub < |t|
    ensures |cs| == |nbrs|
  {
    seq(|nbrs|, k requires 0 <= k < |nbrs| => CostOf(t, nbrs[k], dist) + dist(t[nbrs[k]].pos, t[hub].pos))
  }

  lemma PositionsCons(t: seq<Node>, i: nat, rest: seq<nat>)
    requires i < |t| && AllBelow(rest, |t|)
    ensures AllBelow([i] + rest, |t|)
    ensures Positions(t, [i] + rest) == [t[i].pos] + Positions(t, rest)
  {
    assert Positions(t, [i] + rest)[0] == t[i].pos;
    forall k | 1 <= k < |rest| + 1 ensures Positions(t, [i] + rest)[k] == Positions(t, rest)[k - 1] {
      assert ([i] + rest)[k] == rest[k - 1];
    }
  }

  class RrtStar {
    const sStart: Point
    const sGoal: Point
    const stepLen: real
    /** `search_radius * math.sqrt(math.log(n) / n)` for a tree about to hold n vertices. */
    const shrinkingRadius: nat -> real
    /** `math.hypot(b.x - a.x, b.y - a.y)`. */
    const dist: Dist
    /** `utils.is_collision(a, b)` for the segment from a to b. */
    const collides: (Point, Point) -> bool
    /** The position `new_state(node_start, node_goal)` computes. */
    const steer: (Point, Point) -> Point

    var vertex: seq<Node>
    var path: seq<Point>

    /** Vertex 0 is the start and the only root; every chain of parents ends there. */
    ghost predicate Valid()
      reads this
    {
      NonNegative(dist) && |vertex| > 0 && vertex[0] == Node(sStart, None) &&
      (forall i :: 0 < i < |vertex| ==> vertex[i].parent.Some?) &&
      Acyclic(vertex)
    }

    constructor (sStart: Point, sGoal: Point, stepLen: real, shrinkingRadius: nat -> real,
                 dist: Dist, collides: (Point, Point) -> bool, steer: (Point, Point) -> Point)
      requires NonNegative(dist)
      ensures Valid()
      ensures this.sStart == sStart && this.sGoal == sGoal && this.stepLen == stepLen
      ensures this.shrinkingRadius == shrinkingRadius && this.dist == dist
      ensures this.collides == collides && this.steer == steer
      ensures vertex == [Node(sStart, None)] && path == []
    {
      this.sStart, this.sGoal, this.stepLen := sStart, sGoal, stepLen;
      this.shrinkingRadius, this.dist := shrinkingRadius, dist;
      this.collides, this.steer := collides, steer;
      vertex := [Node(sStart, None)];
      path := [];
      new;
      assert RootWithin(vertex, 0, 0);
    }

    /** `cost(vertex[i])`: walk the parent chain summing edge lengths. */
    method Cost(i: nat) returns (c: real)
      requires Valid() && i < |vertex|
      ensures c == CostOf(vertex, i, dist)
      ensures 0.0 <= c
    {
      ghost var fuel: nat := Fuel(vertex, i);
      var node: nat := i;
      c := 0.0;
      while vertex[node].parent.Some?
        invariant node < |vertex| && RootWithin(vertex, node, fuel)
        invariant c + PathCost(vertex, node, fuel, dist) == CostOf(vertex, i, dist)
        decreases fuel
      {
        var p := vertex[node].parent.value;
        c := c + dist(vertex[p].pos, vertex[node].pos);
        node := p;
        fuel := fuel - 1;
      }
      OnLineageCostBound(vertex, i, i, dist);
      LineageOfShape(vertex, i);
    }

    /** `get_new_cost(vertex[start], end)`: the cost of reaching `end` through vertex `start`. */
    method GetNewCost(start: nat, end: Point) returns (c: real)
      requires Valid() && start < |vertex|
      ensures c == CostOf(vertex, start, dist) + dist(vertex[start].pos, end)
      ensures 0.0 <= c
    {
      var d := dist(vertex[start].pos, end);
      c := Cost(start);
      c := c + d;
    }

    /** `min(search_radius * sqrt(log(n) / n), step_len)`; the planner uses n = len(vertex) + 1. */
    function Radius(n: nat): (r: real)
      ensures r <= stepLen && r <= shrinkingRadius(n)
      ensures r == stepLen || r == shrinkingRadius(n)
    {
      if stepLen < shrinkingRadius(n) then stepLen else shrinkingRadius(n)
    }

    /**
     * `find_near_neighbor(node_new)` over the vertex list `t`: in ascending order, exactly the
     * vertices within the radius of `newPos` whose segment from `newPos` is free.
     */
    function FindNearNeighbor(t: seq<Node>, newPos: Point): (idx: seq<nat>)
      ensures AllBelow(idx, |t|)
      ensures forall j, k :: 0 <= j < k < |idx| ==> idx[j] < idx[k]
      ensures forall k :: 0 <= k < |idx| ==>
        dist(newPos, t[idx[k]].pos) <= Radius(|t| + 1) <= stepLen && !collides(newPos, t[idx[k]].pos)
      ensures forall i :: (0 <= i < |t| && dist(newPos, t[i].pos) <= Radius(|t| + 1) &&
                           !collides(newPos, t[i].pos)) ==> i in idx
    {
      var r := Radius(|t| + 1);
      Filter(|t|, (i: nat) => if i < |t| then dist(newPos, t[i].pos) <= r && !collides(newPos, t[i].pos) else false)
    }

    /**
     * `choose_parent(node_new, neighbor_index)`: hang the new vertex under the first
     * neighbour through which it is cheapest to reach.
     */
    method ChooseParent(hub: nat, nbrs: seq<nat>)
      requires Valid() && 0 < hub == |vertex| - 1 && |nbrs| > 0 && AllBelow(nbrs, hub)
      requires forall i :: 0 <= i < |vertex| ==> vertex[i].parent != Some(hub)
      modifies this
      ensures Valid() && path == old(path)
      ensures vertex == Reparent(old(vertex), hub, nbrs[ArgMin(NewCosts(old(vertex), nbrs, hub, dist))])
    {
      var cost: seq<real> := [];
      for k := 0 to |nbrs|
        invariant vertex == old(vertex) && path == old(path)
        invariant |cost| == k
        invariant forall j :: 0 <= j < k ==> cost[j] == NewCosts(vertex, nbrs, hub, dist)[j]
      {
        var c := GetNewCost(nbrs[k], vertex[hub].pos);
        cost := cost + [c];
      }
      assert cost == NewCosts(vertex, nbrs, hub, dist);
      var best := nbrs[ArgMin(cost)];
      ReparentChildless(vertex, hub, best);
      vertex := vertex[hub := vertex[hub].(parent := Some(best))];
    }

    /**
     * `rewire(node_new, neighbor_index)`: each neighbour in turn is re-hung under the new
     * vertex when that is strictly cheaper than its current path.
     */
    method Rewire(hub: nat, nbrs: seq<nat>)
      requires Valid() && hub < |vertex| && AllBelow(nbrs, |vertex|)
      modifies this
      ensures Valid() && path == old(path)
      ensures vertex == RewireAll(old(vertex), hub, nbrs, dist)
    {
      for k := 0 to |nbrs|
        invariant Valid() && path == old(path) && |vertex| == |old(vertex)|
        invariant vertex == RewireAll(old(vertex), hub, nbrs[..k], dist)
      {
        assert nbrs[..k + 1][..k] == nbrs[..k];
        var i := nbrs[k];
        var neighbourCost := Cost(i);
        var throughHub := GetNewCost(hub, vertex[i].pos);
        if neighbourCost > throughHub {
          CheaperMeansNotAncestor(vertex, i, hub, dist);
          ReparentKeepsAcyclic(vertex, i, hub);
          vertex := vertex[i := vertex[i].(parent := Some(hub))];
        }
      }
      assert nbrs[..|nbrs|] == nbrs;
    }

    /** `[dist_list[i] + cost(vertex[i]) for i in idx]`. */
    method GoalCostList(idx: seq<nat>) returns (costList: seq<real>)
      requires Valid() && AllBelow(idx, |vertex|)
      ensures costList == GoalCosts(vertex, sGoal, idx, dist)
    {
      costList := [];
      for k := 0 to |idx|
        invariant |costList| == k
        invariant forall j :: 0 <= j < k ==> costList[j] == GoalCosts(vertex, sGoal, idx, dist)[j]
      {
        var c := Cost(idx[k]);
        costList := costList + [dist(sGoal, vertex[idx[k]].pos) + c];
      }
    }

    /**
     * `search_goal_parent`, with the costs kept aligned with the candidates they belong to:
     * the cheapest collision-free vertex within `stepLen` of the goal, else the last vertex.
     */
    method SearchGoalParent() returns (index: nat)
      requires Valid()
      ensures index == GoalParent(vertex, sGoal, stepLen, dist, collides)
      ensures index < |vertex|
    {
      var nodeIndex := GoalCandidates(vertex, sGoal, stepLen, dist);
      if |nodeIndex| > 0 {
        var free := FreeCandidates(vertex, sGoal, nodeIndex, collides);
        if |free| > 0 {
          var costList := GoalCostList(free);
          return free[ArgMin(costList)];
        }
      }
      return |vertex| - 1;
    }

    /** `extract_path(vertex[end])`: the goal, then the positions from `end` up to the root. */
    method ExtractPath(end: nat) returns (p: seq<Point>)
      requires Valid() && end < |vertex|
      ensures p == [sGoal] + Positions(vertex, LineageOf(vertex, end))
      ensures |p| == |LineageOf(vertex, end)| + 1 && 2 <= |p|
      ensures p[0] == sGoal && p[1] == vertex[end].pos
    {
      ghost var fuel: nat := Fuel(vertex, end);
      p := [sGoal];
      var node: nat := end;
      while vertex[node].parent.Some?
        invariant node < |vertex| && RootWithin(vertex, node, fuel)
        invariant AllBelow(Lineage(vertex, node, fuel), |vertex|)
        invariant p + Positions(vertex, Lineage(vertex, node, fuel)) ==
                  [sGoal] + Positions(vertex, LineageOf(vertex, end))
        decreases fuel
      {
        var parent := vertex[node].parent.value;
        LineageShape(vertex, parent, fuel - 1);
        PositionsCons(vertex, node, Lineage(vertex, parent, fuel - 1));
        p := p + [vertex[node].pos];
        node := parent;
        fuel := fuel - 1;
      }
      PositionsCons(vertex, node, []);
      p := p + [vertex[node].pos];
      LineageOfShape(vertex, end);
    }

    /**
     * Step 1 of `smoothing`: walk the path backwards, keeping a waypoint only where the
     * straight segment from the last kept one is blocked, then restore path order.
     */
    method RemoveRedundantWaypoints() returns (r: seq<Point>)
      ensures |path| == 0 ==> r == []
      ensures |path| > 0 ==> r == NonRedundant(path, collides)
    {
      if |path| == 0 {
        return [];
      }
      var nonRedundant := [path[|path| - 1]];
      var i: int := |path| - 2;
      while i >= 0
        invariant -1 <= i <= |path| - 2
        invariant nonRedundant == Scan(path, collides, i + 1)
        decreases i
      {
        if collides(nonRedundant[|nonRedundant| - 1], path[i]) {
          nonRedundant := nonRedundant + [path[i + 1]];
        }
        i := i - 1;
      }
      nonRedundant := nonRedundant + [path[0]];
      r := Reverse(nonRedundant);
    }

    /**
     * The tree after lines 60-64 of `planning`: `t` with the new vertex appended under
     * `near`; with neighbours, the new vertex re-hung under the cheapest of them and the
     * neighbours rewired through it.
     */
    ghost function Inserted(t: seq<Node>, newPos: Point, near: nat, nbrs: seq<nat>): (r: seq<Node>)
      requires NonNegative(dist) && Acyclic(t) && near < |t| && AllBelow(nbrs, |t|)
      ensures Acyclic(r) && |r| == |t| + 1
    {
      var grown := t + [Node(newPos, Some(near))];
      AppendLeafKeepsAcyclic(t, Node(newPos, Some(near)), dist);
      if |nbrs| == 0 then grown
      else
        var best := nbrs[ArgMin(NewCosts(grown, nbrs, |t|, dist))];
        ReparentChildless(grown, |t|, best);
        RewireAll(Reparent(grown, |t|, best), |t|, nbrs, dist)
    }

    /**
     * The tree after one iteration of the loop in `planning` for the sampled point `p`:
     * unchanged when the step from the nearest vertex collides, otherwise `Inserted` with
     * the near neighbours of the steered point.
     */
    ghost function GrowStep(t: seq<Node>, p: Point): (r: seq<Node>)
      requires NonNegative(dist) && Acyclic(t) && |t| > 0
      ensures Acyclic(r) && |t| <= |r| <= |t| + 1
    {
      var near := NearestNeighbor(t, p, dist);
      var newPos := steer(t[near].pos, p);
      if collides(t[near].pos, newPos) then t
      else Inserted(t, newPos, near, FindNearNeighbor(t, newPos))
    }

    /** The tree after the loop of `planning` has run over `samples`, one `GrowStep` each. */
    ghost function GrowAll(t: seq<Node>, samples: seq<Point>): (r: seq<Node>)
      requires NonNegative(dist) && Acyclic(t) && |t| > 0
      ensures Acyclic(r) && |t| <= |r| <= |t| + |samples|
      decreases |samples|
    {
      if |samples| == 0 then t
      else GrowStep(GrowAll(t, samples[..|samples| - 1]), samples[|samples| - 1])
    }

    /** A growth step moves no vertex; a step that grows the tree puts the new vertex at the steered point. */
    lemma GrowStepKeepsPositions(t: seq<Node>, p: Point)
      requires NonNegative(dist) && Acyclic(t) && |t| > 0
      ensures forall i :: 0 <= i < |t| ==> GrowStep(t, p)[i].pos == t[i].pos
      ensures var near := NearestNeighbor(t, p, dist);
        var newPos := steer(t[near].pos, p);
        !collides(t[near].pos, newPos) ==> |GrowStep(t, p)| == |t| + 1 && GrowStep(t, p)[|t|].pos == newPos
    {
      var near := NearestNeighbor(t, p, dist);
      var newPos := steer(t[near].pos, p);
      if !collides(t[near].pos, newPos) {
        var nbrs := FindNearNeighbor(t, newPos);
        var grown := t + [Node(newPos, Some(near))];
        AppendLeafKeepsAcyclic(t, Node(newPos, Some(near)), dist);
        if |nbrs| > 0 {
          var best := nbrs[ArgMin(NewCosts(grown, nbrs, |t|, dist))];
          ReparentChildless(grown, |t|, best);
          RewireFrame(Reparent(grown, |t|, best), |t|, nbrs, dist);
        }
      }
    }

    /** The whole loop of `planning` moves no vertex that was already in the tree. */
    lemma {:induction false} GrowAllKeepsPositions(t: seq<Node>, samples: seq<Point>)
      requires NonNegative(dist) && Acyclic(t) && |t| > 0
      ensures forall i :: 0 <= i < |t| ==> GrowAll(t, samples)[i].pos == t[i].pos
      decreases |samples|
    {
      if |samples| > 0 {
        var front := samples[..|samples| - 1];
        GrowAllKeepsPositions(t, front);
        GrowStepKeepsPositions(GrowAll(t, front), samples[|samples| - 1]);
      }
    }

    /**
     * Lines 60-64 of `planning`: append the new vertex under its nearest vertex; with
     * neighbours, re-hang it under the cheapest one and rewire the neighbours through it.
     */
    method Insert(newPos: Point, near: nat, nbrs: seq<nat>)
      requires Valid() && near < |vertex| && AllBelow(nbrs, |vertex|)
      modifies this
      ensures Valid() && path == old(path) && |vertex| == |old(vertex)| + 1
      ensures forall i :: 0 <= i < |old(vertex)| ==> vertex[i].pos == old(vertex)[i].pos
      ensures vertex[|old(vertex)|].pos == newPos
      ensures var grown := old(vertex) + [Node(newPos, Some(near))];
        if |nbrs| == 0 then vertex == grown
        else
          Acyclic(grown) &&
          var chosen := Reparent(grown, |old(vertex)|, nbrs[ArgMin(NewCosts(grown, nbrs, |old(vertex)|, dist))]);
          Acyclic(chosen) && vertex == RewireAll(chosen, |old(vertex)|, nbrs, dist)
      ensures vertex == Inserted(old(vertex), newPos, near, nbrs)
    {
      AppendLeafKeepsAcyclic(vertex, Node(newPos, Some(near)), dist);
      vertex := vertex + [Node(newPos, Some(near))];
      if |nbrs| > 0 {
        ChooseParent(|vertex| - 1, nbrs);
        ghost var chosen := vertex;
        Rewire(|vertex| - 1, nbrs);
        RewireFrame(chosen, |vertex| - 1, nbrs, dist);
      }
    }

    /**
     * One iteration of the loop in `planning` for the sampled point `nodeRand`: the tree
     * grows by one vertex exactly when the step from the nearest vertex is collision-free.
     */
    method Grow(nodeRand: Point)
      requires Valid()
      modifies this
      ensures Valid() && path == old(path)
      ensures |old(vertex)| <= |vertex| <= |old(vertex)| + 1
      ensures forall i :: 0 <= i < |old(vertex)| ==> vertex[i].pos == old(vertex)[i].pos
      ensures var near := NearestNeighbor(old(vertex), nodeRand, dist);
        var newPos := steer(old(vertex)[near].pos, nodeRand);
        if collides(old(vertex)[near].pos, newPos) then vertex == old(vertex)
        else |vertex| == |old(vertex)| + 1 && vertex[|old(vertex)|].pos == newPos
      ensures vertex == GrowStep(old(vertex), nodeRand)
    {
      var near := NearestNeighbor(vertex, nodeRand, dist);
      var newPos := steer(vertex[near].pos, nodeRand);
      if !collides(vertex[near].pos, newPos) {
        var neighborIndex := FindNearNeighbor(vertex, newPos);
        Insert(newPos, near, neighborIndex);
      }
    }

    /** `planning`: grow the tree once per sampled point, then extract the path to the goal. */
    method Planning(samples: seq<Point>)
      requires Valid()
      modifies this
      ensures Valid()
      ensures |old(vertex)| <= |vertex| <= |old(vertex)| + |samples|
      ensures forall i :: 0 <= i < |old(vertex)| ==> vertex[i].pos == old(vertex)[i].pos
      ensures vertex == GrowAll(old(vertex), samples)
      ensures path == [sGoal] + Positions(vertex, LineageOf(vertex, GoalParent(vertex, sGoal, stepLen, dist, collides)))
    {
      for k := 0 to |samples|
        invariant Valid()
        invariant vertex == GrowAll(old(vertex), samples[..k])
        invariant |old(vertex)| <= |vertex| <= |old(vertex)| + k
        invariant forall i :: 0 <= i < |old(vertex)| ==> vertex[i].pos == old(vertex)[i].pos
      {
        assert samples[..k + 1][..k] == samples[..k];
        Grow(samples[k]);
      }
      assert samples[..|samples|] == samples;
      var index := SearchGoalParent();
      path := ExtractPath(index);
    }
  }
}
