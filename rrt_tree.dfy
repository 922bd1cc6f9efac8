/**
 * The tree of the 2-D RRT* planner (rrt_2D/rrt_star.py) as a list of vertices whose
 * `parent` is the index of another vertex. The Euclidean distance `math.hypot(b - a)` and
 * the collision test are parameters: the distance is only assumed non-negative.
 */
module RrtTree {
  import opened Wrappers

  datatype Point = Point(x: real, y: real)

  datatype Node = Node(pos: Point, parent: Option<nat>)

  type Dist = (Point, Point) -> real

  ghost predicate NonNegative(dist: Dist) {
    forall a, b :: 0.0 <= dist(a, b)
  }

  predicate ParentsInRange(t: seq<Node>) {
    forall i :: 0 <= i < |t| && t[i].parent.Some? ==> t[i].parent.value < |t|
  }

  /** Following parents from vertex i reaches a vertex without parent within `fuel` steps. */
  predicate RootWithin(t: seq<Node>, i: nat, fuel: nat)
    requires ParentsInRange(t) && i < |t|
    decreases fuel
  {
    match t[i].parent
    case None => true
    case Some(p) => fuel > 0 && RootWithin(t, p, fuel - 1)
  }

  ghost predicate HasRoot(t: seq<Node>, i: nat)
    requires ParentsInRange(t) && i < |t|
  {
    exists n: nat :: RootWithin(t, i, n)
  }

  /** Every parent chain ends: the `while node.parent` walks of the planner terminate. */
  ghost predicate Acyclic(t: seq<Node>) {
    ParentsInRange(t) && forall i :: 0 <= i < |t| ==> HasRoot(t, i)
  }

  /** The summed edge lengths along the parent chain of i. */
  function PathCost(t: seq<Node>, i: nat, fuel: nat, dist: Dist): (c: real)
    requires ParentsInRange(t) && i < |t| && RootWithin(t, i, fuel)
    ensures t[i].parent.None? ==> c == 0.0
    decreases fuel
  {
    match t[i].parent
    case None => 0.0
    case Some(p) => PathCost(t, p, fuel - 1, dist) + dist(t[p].pos, t[i].pos)
  }

  /** The vertices on the parent chain of i, from i itself to the root. */
  function Lineage(t: seq<Node>, i: nat, fuel: nat): (l: seq<nat>)
    requires ParentsInRange(t) && i < |t| && RootWithin(t, i, fuel)
    ensures 0 < |l| <= fuel + 1 && l[0] == i
    decreases fuel
  {
    match t[i].parent
    case None => [i]
    case Some(p) => [i] + Lineage(t, p, fuel - 1)
  }

  ghost function Fuel(t: seq<Node>, i: nat): (n: nat)
    requires Acyclic(t) && i < |t|
    ensures RootWithin(t, i, n)
  {
    assert HasRoot(t, i);
    var n: nat :| RootWithin(t, i, n); n
  }

  /** `cost(vertex[i])`: the length of the tree path from the root to vertex i. */
  ghost function CostOf(t: seq<Node>, i: nat, dist: Dist): (c: real)
    requires Acyclic(t) && i < |t|
    ensures t[i].parent.None? ==> c == 0.0
  {
    PathCost(t, i, Fuel(t, i), dist)
  }

  ghost function LineageOf(t: seq<Node>, i: nat): (l: seq<nat>)
    requires Acyclic(t) && i < |t|
    ensures AllBelow(l, |t|)
  {
    LineageShape(t, i, Fuel(t, i));
    Lineage(t, i, Fuel(t, i))
  }

  /** How much fuel is spent does not matter once it suffices. */
  lemma {:induction false} FuelIrrelevant(t: seq<Node>, i: nat, n: nat, m: nat, dist: Dist)
    requires ParentsInRange(t) && i < |t| && RootWithin(t, i, n) && RootWithin(t, i, m)
    ensures PathCost(t, i, n, dist) == PathCost(t, i, m, dist)
    ensures Lineage(t, i, n) == Lineage(t, i, m)
    decreases n
  {
    if t[i].parent.Some? {
      FuelIrrelevant(t, t[i].parent.value, n - 1, m - 1, dist);
    }
  }

  /** `cost` unrolled once: 0 at a root, otherwise the parent's cost plus the edge to it. */
  lemma CostOfStep(t: seq<Node>, i: nat, dist: Dist)
    requires Acyclic(t) && i < |t|
    ensures t[i].parent.None? ==> CostOf(t, i, dist) == 0.0 && LineageOf(t, i) == [i]
    ensures t[i].parent.Some? ==>
      var p := t[i].parent.value;
      CostOf(t, i, dist) == CostOf(t, p, dist) + dist(t[p].pos, t[i].pos) &&
      LineageOf(t, i) == [i] + LineageOf(t, p)
  {
    if t[i].parent.Some? {
      var p := t[i].parent.value;
      FuelIrrelevant(t, p, Fuel(t, i) - 1, Fuel(t, p), dist);
    }
  }

  /** With non-negative edges, every vertex costs at least the vertices above it. */
  lemma {:induction false} LineageCostBound(t: seq<Node>, i: nat, n: nat, a: nat, dist: Dist)
      returns (m: nat)
    requires NonNegative(dist) && ParentsInRange(t) && i < |t| && RootWithin(t, i, n)
    requires a in Lineage(t, i, n)
    ensures a < |t| && RootWithin(t, a, m) && 0.0 <= PathCost(t, a, m, dist) <= PathCost(t, i, n, dist)
    decreases n
  {
    if a == i {
      m := n;
      PathCostNonNegative(t, i, n, dist);
    } else {
      var p := t[i].parent.value;
      m := LineageCostBound(t, p, n - 1, a, dist);
    }
  }

  lemma {:induction false} PathCostNonNegative(t: seq<Node>, i: nat, n: nat, dist: Dist)
    requires NonNegative(dist) && ParentsInRange(t) && i < |t| && RootWithin(t, i, n)
    ensures 0.0 <= PathCost(t, i, n, dist)
    decreases n
  {
    if t[i].parent.Some? {
      PathCostNonNegative(t, t[i].parent.value, n - 1, dist);
    }
  }

  /** Costs are never negative, and a vertex on the path of another costs no more than it. */
  lemma OnLineageCostBound(t: seq<Node>, i: nat, a: nat, dist: Dist)
    requires NonNegative(dist) && Acyclic(t) && i < |t| && a in LineageOf(t, i)
    ensures a < |t| && 0.0 <= CostOf(t, a, dist) <= CostOf(t, i, dist)
  {
    var m := LineageCostBound(t, i, Fuel(t, i), a, dist);
    FuelIrrelevant(t, a, m, Fuel(t, a), dist);
  }

  /**
   * The shape of a parent chain: it starts at i, stays in range, each entry's parent is the
   * next entry, and the last entry is a root.
   */
  lemma {:induction false} LineageShape(t: seq<Node>, i: nat, n: nat)
    requires ParentsInRange(t) && i < |t| && RootWithin(t, i, n)
    ensures var l := Lineage(t, i, n);
      0 < |l| <= n + 1 && l[0] == i &&
      (forall k :: 0 <= k < |l| ==> l[k] < |t|) &&
      (forall k :: 0 <= k < |l| - 1 ==> t[l[k]].parent == Some(l[k + 1])) &&
      t[l[|l| - 1]].parent.None?
    decreases n
  {
    if t[i].parent.Some? {
      var p := t[i].parent.value;
      LineageShape(t, p, n - 1);
      var rest := Lineage(t, p, n - 1);
      var l := Lineage(t, i, n);
      assert l == [i] + rest;
      forall k | 0 <= k < |l| ensures l[k] < |t| {
        if k > 0 {
          assert l[k] == rest[k - 1];
        }
      }
      forall k | 0 <= k < |l| - 1 ensures t[l[k]].parent == Some(l[k + 1]) {
        assert l[k + 1] == rest[k];
        if k > 0 {
          assert l[k] == rest[k - 1];
        }
      }
      assert l[|l| - 1] == rest[|rest| - 1];
    }
  }

  lemma LineageOfShape(t: seq<Node>, i: nat)
    requires Acyclic(t) && i < |t|
    ensures var l := LineageOf(t, i);
      0 < |l| && l[0] == i &&
      (forall k :: 0 <= k < |l| ==> l[k] < |t|) &&
      (forall k :: 0 <= k < |l| - 1 ==> t[l[k]].parent == Some(l[k + 1])) &&
      t[l[|l| - 1]].parent.None?
  {
    LineageShape(t, i, Fuel(t, i));
  }

  /** The tree after vertex a is given parent w. */
  function Reparent(t: seq<Node>, a: nat, w: nat): (r: seq<Node>)
    requires a < |t|
    ensures |r| == |t| && r[a].pos == t[a].pos && r[a].parent == Some(w)
    ensures forall j :: 0 <= j < |t| && j != a ==> r[j] == t[j]
  {
    t[a := t[a].(parent := Some(w))]
  }

  /** A chain that avoids a is the same chain after a is reparented. */
  lemma {:induction false} AvoidingChainSurvives(t: seq<Node>, j: nat, n: nat, a: nat, w: nat)
    requires ParentsInRange(t) && j < |t| && RootWithin(t, j, n) && a < |t| && w < |t|
    requires a !in Lineage(t, j, n)
    ensures ParentsInRange(Reparent(t, a, w)) && RootWithin(Reparent(t, a, w), j, n)
    decreases n
  {
    var t' := Reparent(t, a, w);
    assert ParentsInRange(t') by {
      forall i | 0 <= i < |t'| && t'[i].parent.Some? ensures t'[i].parent.value < |t'| {
        if i != a {
          assert t'[i] == t[i];
        }
      }
    }
    if t[j].parent.Some? {
      AvoidingChainSurvives(t, t[j].parent.value, n - 1, a, w);
    }
  }

  /** Once a has a root in the new tree, every chain that used to end has one too. */
  lemma {:induction false} ChainThroughRoot(t: seq<Node>, i: nat, n: nat, a: nat, w: nat, fa: nat)
      returns (m: nat)
    requires ParentsInRange(t) && i < |t| && RootWithin(t, i, n) && a < |t| && w < |t|
    requires ParentsInRange(Reparent(t, a, w)) && RootWithin(Reparent(t, a, w), a, fa)
    ensures RootWithin(Reparent(t, a, w), i, m)
    decreases n
  {
    var t' := Reparent(t, a, w);
    if i == a {
      m := fa;
    } else if t[i].parent.None? {
      assert t'[i] == t[i];
      m := 0;
    } else {
      assert t'[i] == t[i];
      var k := ChainThroughRoot(t, t[i].parent.value, n - 1, a, w, fa);
      m := k + 1;
    }
  }

  /** Giving vertex a a new parent w that does not descend from a keeps every chain finite. */
  lemma ReparentKeepsAcyclic(t: seq<Node>, a: nat, w: nat)
    requires Acyclic(t) && a < |t| && w < |t| && a !in LineageOf(t, w)
    ensures Acyclic(Reparent(t, a, w))
  {
    var t' := Reparent(t, a, w);
    AvoidingChainSurvives(t, w, Fuel(t, w), a, w);
    assert RootWithin(t', a, Fuel(t, w) + 1);
    forall i | 0 <= i < |t'| ensures HasRoot(t', i) {
      var m := ChainThroughRoot(t, i, Fuel(t, i), a, w, Fuel(t, w) + 1);
    }
  }

  /**
   * The rewiring test cannot close a cycle: if re-hanging a under w is strictly cheaper,
   * a is not an ancestor of w.
   */
  lemma CheaperMeansNotAncestor(t: seq<Node>, a: nat, w: nat, dist: Dist)
    requires NonNegative(dist) && Acyclic(t) && a < |t| && w < |t|
    requires CostOf(t, a, dist) > CostOf(t, w, dist) + dist(t[w].pos, t[a].pos)
    ensures a !in LineageOf(t, w)
  {
    if a in LineageOf(t, w) {
      OnLineageCostBound(t, w, a, dist);
    }
  }

  /** A vertex no other vertex points at lies on no chain but its own. */
  lemma {:induction false} ChildlessNotOnLineage(t: seq<Node>, j: nat, n: nat, a: nat)
    requires ParentsInRange(t) && j < |t| && RootWithin(t, j, n) && a != j
    requires forall i :: 0 <= i < |t| ==> t[i].parent != Some(a)
    ensures a !in Lineage(t, j, n)
    decreases n
  {
    if t[j].parent.Some? {
      ChildlessNotOnLineage(t, t[j].parent.value, n - 1, a);
    }
  }

  /** Chains of the old vertices are unchanged when a vertex is appended. */
  lemma {:induction false} AppendKeepsChain(t: seq<Node>, v: Node, i: nat, n: nat, dist: Dist)
    requires ParentsInRange(t) && ParentsInRange(t + [v]) && i < |t| && RootWithin(t, i, n)
    ensures RootWithin(t + [v], i, n)
    ensures PathCost(t + [v], i, n, dist) == PathCost(t, i, n, dist)
    ensures Lineage(t + [v], i, n) == Lineage(t, i, n)
    decreases n
  {
    assert (t + [v])[i] == t[i];
    if t[i].parent.Some? {
      var p := t[i].parent.value;
      assert (t + [v])[p] == t[p];
      AppendKeepsChain(t, v, p, n - 1, dist);
    }
  }

  /** `vertex.append(node_new)` with a parent already in the tree keeps it acyclic and leaves the old costs alone. */
  lemma AppendLeafKeepsAcyclic(t: seq<Node>, v: Node, dist: Dist)
    requires Acyclic(t) && v.parent.Some? && v.parent.value < |t|
    ensures Acyclic(t + [v])
    ensures forall i :: 0 <= i < |t| ==> CostOf(t + [v], i, dist) == CostOf(t, i, dist)
    ensures forall i :: 0 <= i < |t + [v]| ==> (t + [v])[i].parent != Some(|t|)
  {
    var t' := t + [v];
    assert ParentsInRange(t') by {
      forall i | 0 <= i < |t'| && t'[i].parent.Some? ensures t'[i].parent.value < |t'| {
        if i < |t| {
          assert t'[i] == t[i];
        }
      }
    }
    forall i | 0 <= i < |t| ensures RootWithin(t', i, Fuel(t, i)) {
      AppendKeepsChain(t, v, i, Fuel(t, i), dist);
    }
    var p := v.parent.value;
    forall i | 0 <= i < |t'| ensures HasRoot(t', i) {
      if i < |t| {
        AppendKeepsChain(t, v, i, Fuel(t, i), dist);
      } else {
        AppendKeepsChain(t, v, p, Fuel(t, p), dist);
        assert RootWithin(t', i, Fuel(t, p) + 1);
      }
    }
    forall i | 0 <= i < |t| ensures CostOf(t', i, dist) == CostOf(t, i, dist) {
      AppendKeepsChain(t, v, i, Fuel(t, i), dist);
      FuelIrrelevant(t', i, Fuel(t, i), Fuel(t', i), dist);
    }
    forall i | 0 <= i < |t'| ensures t'[i].parent != Some(|t|) {
      if i < |t| {
        assert t'[i] == t[i];
      }
    }
  }

  /** Hanging a childless vertex under any other vertex keeps the tree acyclic. */
  lemma ReparentChildless(t: seq<Node>, a: nat, w: nat)
    requires Acyclic(t) && a < |t| && w < |t| && a != w
    requires forall i :: 0 <= i < |t| ==> t[i].parent != Some(a)
    ensures Acyclic(Reparent(t, a, w))
  {
    ChildlessNotOnLineage(t, w, Fuel(t, w), a);
    ReparentKeepsAcyclic(t, a, w);
  }

  /** One step of `rewire`: hang vertex i under `hub` only when that is strictly cheaper. */
  ghost function RewireStep(t: seq<Node>, hub: nat, i: nat, dist: Dist): (r: seq<Node>)
    requires NonNegative(dist) && Acyclic(t) && hub < |t| && i < |t|
    ensures Acyclic(r) && |r| == |t|
  {
    if CostOf(t, i, dist) > CostOf(t, hub, dist) + dist(t[hub].pos, t[i].pos) then
      CheaperMeansNotAncestor(t, i, hub, dist);
      ReparentKeepsAcyclic(t, i, hub);
      Reparent(t, i, hub)
    else t
  }

  predicate AllBelow(s: seq<nat>, n: nat) {
    forall k :: 0 <= k < |s| ==> s[k] < n
  }

  /** `rewire` over the neighbour list, in order; each step sees the tree the previous one left. */
  ghost function RewireAll(t: seq<Node>, hub: nat, nbrs: seq<nat>, dist: Dist): (r: seq<Node>)
    requires NonNegative(dist) && Acyclic(t) && hub < |t| && AllBelow(nbrs, |t|)
    ensures Acyclic(r) && |r| == |t|
    decreases |nbrs|
  {
    if |nbrs| == 0 then t
    else
      var prev := RewireAll(t, hub, nbrs[..|nbrs| - 1], dist);
      RewireStep(prev, hub, nbrs[|nbrs| - 1], dist)
  }

  /**
   * What rewiring may change: only the parents of listed neighbours, only to `hub`;
   * positions stay, and a root at cost zero is never re-hung.
   */
  lemma {:induction false} RewireFrame(t: seq<Node>, hub: nat, nbrs: seq<nat>, dist: Dist)
    requires NonNegative(dist) && Acyclic(t) && hub < |t| && AllBelow(nbrs, |t|)
    ensures var r := RewireAll(t, hub, nbrs, dist);
      (forall i :: 0 <= i < |t| ==> r[i].pos == t[i].pos) &&
      (forall i :: 0 <= i < |t| && i !in nbrs ==> r[i] == t[i]) &&
      (forall i :: 0 <= i < |t| ==> r[i].parent == t[i].parent || r[i].parent == Some(hub))
    decreases |nbrs|
  {
    if |nbrs| > 0 {
      var front := nbrs[..|nbrs| - 1];
      RewireFrame(t, hub, front, dist);
      assert forall i :: i in front ==> i in nbrs;
    }
  }

  /** The root, at cost zero, is never re-hung by a rewiring step. */
  lemma {:induction false} RewireKeepsRoot(t: seq<Node>, hub: nat, nbrs: seq<nat>, dist: Dist, root: nat)
    requires NonNegative(dist) && Acyclic(t) && hub < |t| && AllBelow(nbrs, |t|)
    requires root < |t| && t[root].parent.None?
    ensures RewireAll(t, hub, nbrs, dist)[root] == t[root]
    decreases |nbrs|
  {
    if |nbrs| > 0 {
      var front := nbrs[..|nbrs| - 1];
      RewireKeepsRoot(t, hub, front, dist, root);
      var prev := RewireAll(t, hub, front, dist);
      CostOfStep(prev, root, dist);
      OnLineageCostBound(prev, hub, hub, dist);
      LineageOfShape(prev, hub);
      assert dist(prev[hub].pos, prev[root].pos) >= 0.0;
    }
  }

  /** The first index holding the least value (`np.argmin`). */
  function ArgMin(s: seq<real>): (k: nat)
    requires |s| > 0
    ensures k < |s|
    ensures forall j :: 0 <= j < |s| ==> s[k] <= s[j]
    ensures forall j :: 0 <= j < k ==> s[k] < s[j]
  {
    if |s| == 1 then 0
    else
      var k := ArgMin(s[..|s| - 1]);
      if s[|s| - 1] < s[k] then |s| - 1 else k
  }

  /** `[i for i in range(n) if keep(i)]`. */
  function Filter(n: nat, keep: nat -> bool): (r: seq<nat>)
    ensures |r| <= n
    ensures forall k :: 0 <= k < |r| ==> r[k] < n && keep(r[k])
    ensures forall j, k :: 0 <= j < k < |r| ==> r[j] < r[k]
    ensures forall i :: 0 <= i < n && keep(i) ==> i in r
  {
    if n == 0 then []
    else if keep(n - 1) then Filter(n - 1, keep) + [n - 1]
    else Filter(n - 1, keep)
  }

  /** `nearest_neighbor`: the first vertex at least distance from `n`. */
  function NearestNeighbor(t: seq<Node>, n: Point, dist: Dist): (k: nat)
    requires |t| > 0
    ensures k < |t|
    ensures forall j :: 0 <= j < |t| ==> dist(n, t[k].pos) <= dist(n, t[j].pos)
    ensures forall j :: 0 <= j < k ==> dist(n, t[k].pos) < dist(n, t[j].pos)
  {
    var ds := seq(|t|, j requires 0 <= j < |t| => dist(n, t[j].pos));
    assert forall j :: 0 <= j < |t| ==> ds[j] == dist(n, t[j].pos);
    ArgMin(ds)
  }

  /** The positions along a list of vertex indices. */
  function Positions(t: seq<Node>, idx: seq<nat>): (ps: seq<Point>)
    requires AllBelow(idx, |t|)
    ensures |ps| == |idx| && forall k :: 0 <= k < |idx| ==> ps[k] == t[idx[k]].pos
  {
    seq(|idx|, k requires 0 <= k < |idx| => t[idx[k]].pos)
  }

  /** The vertices within `stepLen` of the goal (`node_index`). */
  function GoalCandidates(t: seq<Node>, goal: Point, stepLen: real, dist: Dist): (r: seq<nat>)
    ensures AllBelow(r, |t|)
    ensures forall k :: 0 <= k < |r| ==> dist(goal, t[r[k]].pos) <= stepLen
    ensures forall j, k :: 0 <= j < k < |r| ==> r[j] < r[k]
    ensures forall i :: 0 <= i < |t| && dist(goal, t[i].pos) <= stepLen ==> i in r
  {
    Filter(|t|, (i: nat) => if i < |t| then dist(goal, t[i].pos) <= stepLen else false)
  }

  /** The candidates whose edge to the goal is free of collision. */
  function FreeCandidates(t: seq<Node>, goal: Point, cands: seq<nat>, collides: (Point, Point) -> bool): (r: seq<nat>)
    requires AllBelow(cands, |t|)
    ensures AllBelow(r, |t|) && |r| <= |cands|
    ensures forall k :: 0 <= k < |r| ==> r[k] in cands && !collides(t[r[k]].pos, goal)
    ensures forall i :: i in cands && !collides(t[i].pos, goal) ==> i in r
  {
    if |cands| == 0 then []
    else
      var rest := FreeCandidates(t, goal, cands[1..], collides);
      if collides(t[cands[0]].pos, goal) then rest else [cands[0]] + rest
  }

  /** `dist_list[i] + cost(vertex[i])` for each listed vertex. */
  ghost function GoalCosts(t: seq<Node>, goal: Point, idx: seq<nat>, dist: Dist): (cs: seq<real>)
    requires Acyclic(t) && AllBelow(idx, |t|)
    ensures |cs| == |idx|
  {
    seq(|idx|, k requires 0 <= k < |idx| => dist(goal, t[idx[k]].pos) + CostOf(t, idx[k], dist))
  }

  /** The error `np.argmin` raises on an empty list. */
  datatype PlanError = EmptyArgMin

  /**
   * `search_goal_parent` as written: the costs are built only for collision-free
   * candidates, but their argmin is used to index the unfiltered candidate list.
   */
  ghost function GoalParentAsWritten(t: seq<Node>, goal: Point, stepLen: real, dist: Dist,
                                     collides: (Point, Point) -> bool): (r: Result<nat, PlanError>)
    requires Acyclic(t) && |t| > 0
    ensures r.Ok? ==> r.value < |t|
    ensures |GoalCandidates(t, goal, stepLen, dist)| == 0 ==> r == Ok(|t| - 1)
    ensures var cands := GoalCandidates(t, goal, stepLen, dist);
      var free := FreeCandidates(t, goal, cands, collides);
      |cands| > 0 && |free| == 0 ==> r == Err(EmptyArgMin)
    ensures var cands := GoalCandidates(t, goal, stepLen, dist);
      |cands| > 0 && r.Ok? ==> r.value in cands && dist(goal, t[r.value].pos) <= stepLen
  {
    var cands := GoalCandidates(t, goal, stepLen, dist);
    if |cands| == 0 then Ok(|t| - 1)
    else
      var free := FreeCandidates(t, goal, cands, collides);
      if |free| == 0 then Err(EmptyArgMin)
      else
        var k := ArgMin(GoalCosts(t, goal, free, dist));
        Ok(cands[k])
  }

  /**
   * `search_goal_parent` as intended: the collision-free vertex within `stepLen` of the goal
   * that is cheapest to reach it through (on ties, the one `np.argmin` finds first); the last
   * vertex when there is none.
   */
  ghost function GoalParent(t: seq<Node>, goal: Point, stepLen: real, dist: Dist,
                            collides: (Point, Point) -> bool): (r: nat)
    requires Acyclic(t) && |t| > 0
    ensures r < |t|
    ensures var free := FreeCandidates(t, goal, GoalCandidates(t, goal, stepLen, dist), collides);
      if |free| == 0 then r == |t| - 1
      else
        r in free && dist(goal, t[r].pos) <= stepLen && !collides(t[r].pos, goal) &&
        forall i :: i in free ==>
          dist(goal, t[r].pos) + CostOf(t, r, dist) <= dist(goal, t[i].pos) + CostOf(t, i, dist)
  {
    var free := FreeCandidates(t, goal, GoalCandidates(t, goal, stepLen, dist), collides);
    if |free| == 0 then |t| - 1
    else
      var cs := GoalCosts(t, goal, free, dist);
      var k := ArgMin(cs);
      assert forall i :: i in free ==> exists j :: 0 <= j < |free| && free[j] == i && cs[j] == dist(goal, t[i].pos) + CostOf(t, i, dist);
      free[k]
  }

  /**
   * The written index arithmetic can pick a vertex whose edge to the goal collides: two
   * candidates, the first blocked, so the only cost is at position 0, which names the first.
   */
  lemma GoalParentAsWrittenPicksBlocked()
    ensures var t := [Node(Point(0.0, 0.0), None), Node(Point(1.0, 0.0), Some(0))];
            var goal := Point(1.0, 1.0);
            var dist: Dist := (a: Point, b: Point) => 1.0;
            var collides := (a: Point, b: Point) => a == Point(0.0, 0.0);
            Acyclic(t) &&
            GoalParentAsWritten(t, goal, 2.0, dist, collides) == Ok(0) && collides(t[0].pos, goal) &&
            GoalParent(t, goal, 2.0, dist, collides) == 1 && !collides(t[1].pos, goal)
  {
    var t := [Node(Point(0.0, 0.0), None), Node(Point(1.0, 0.0), Some(0))];
    var goal := Point(1.0, 1.0);
    var dist: Dist := (a: Point, b: Point) => 1.0;
    var collides := (a: Point, b: Point) => a == Point(0.0, 0.0);
    assert RootWithin(t, 0, 0) && RootWithin(t, 1, 1);
    assert Acyclic(t);
    var cands := GoalCandidates(t, goal, 2.0, dist);
    assert 0 in cands && 1 in cands;
    assert cands == [0, 1];
    assert [0, 1][1..] == [1];
    assert FreeCandidates(t, goal, [], collides) == [];
    assert FreeCandidates(t, goal, [1], collides) == [1];
    var free := FreeCandidates(t, goal, cands, collides);
    assert free == [1];
  }

  /** The non-redundant waypoints collected walking `path` backwards from its end to index i. */
  function Scan(path: seq<Point>, collides: (Point, Point) -> bool, i: nat): (acc: seq<Point>)
    requires 0 < |path| && i <= |path| - 1
    ensures 0 < |acc| && acc[0] == path[|path| - 1]
    decreases |path| - i
  {
    if i == |path| - 1 then [path[|path| - 1]]
    else
      var acc := Scan(path, collides, i + 1);
      if collides(acc[|acc| - 1], path[i]) then acc + [path[i + 1]] else acc
  }

  function Reverse<T>(s: seq<T>): (r: seq<T>)
    ensures |r| == |s| && forall k :: 0 <= k < |s| ==> r[k] == s[|s| - 1 - k]
  {
    if |s| == 0 then [] else Reverse(s[1..]) + [s[0]]
  }

  /** Step 1 of `smoothing`: the kept waypoints, back in path order. */
  function NonRedundant(path: seq<Point>, collides: (Point, Point) -> bool): (r: seq<Point>)
    requires 0 < |path|
    ensures 2 <= |r| && r[0] == path[0] && r[|r| - 1] == path[|path| - 1]
  {
    Reverse(Scan(path, collides, 0) + [path[0]])
  }

  /** The smoothed path keeps both ends of the path and only waypoints of the path. */
  lemma NonRedundantSpec(path: seq<Point>, collides: (Point, Point) -> bool)
    requires 0 < |path|
    ensures var r := NonRedundant(path, collides);
      2 <= |r| <= |path| + 1 && r[0] == path[0] && r[|r| - 1] == path[|path| - 1] &&
      forall k :: 0 <= k < |r| ==> r[k] in path
  {
    var acc := Scan(path, collides, 0);
    ScanLength(path, collides, 0);
    ScanWithin(path, collides, 0);
    var full := acc + [path[0]];
    assert forall k :: 0 <= k < |full| ==> full[k] in path;
  }

  lemma {:induction false} ScanLength(path: seq<Point>, collides: (Point, Point) -> bool, i: nat)
    requires 0 < |path| && i <= |path| - 1
    ensures |Scan(path, collides, i)| <= |path| - i
    decreases |path| - i
  {
    if i < |path| - 1 {
      ScanLength(path, collides, i + 1);
    }
  }

  lemma {:induction false} ScanWithin(path: seq<Point>, collides: (Point, Point) -> bool, i: nat)
    requires 0 < |path| && i <= |path| - 1
    ensures forall k :: 0 <= k < |Scan(path, collides, i)| ==> Scan(path, collides, i)[k] in path[i..]
    decreases |path| - i
  {
    if i < |path| - 1 {
      ScanWithin(path, collides, i + 1);
      var acc := Scan(path, collides, i + 1);
      forall k | 0 <= k < |acc| ensures acc[k] in path[i..] {
        assert acc[k] in path[i + 1..];
      }
      assert path[i + 1] in path[i..];
    }
  }
}
