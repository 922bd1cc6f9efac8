# Qualisys drone SDK core, modelled in Dafny

This project models three parts of the Qualisys drone SDK:

- **The `QualisysCrazyflie` wrapper** (`qfly/crazyflie.py`). It flies one Crazyflie inside a cubic safe volume.
- **The toolkit** (`quadkit_crazyflie.py`). It contains:
  - the motion-capture `Pose` and its two QTM constructors;
  - the `QtmWrapper` that indexes the 6DOF bodies and handles the QTM packets;
  - the estimator set-up;
  - the clamped `sqrt`.
- **The RRT\* planner** (`rrt_2D/rrt_star.py`). It keeps its tree as a vertex list. It chooses parents, rewires, picks the goal's parent and extracts and thins the path.

Modules:

| module | file | what it holds |
|---|---|---|
| `Wrappers` | wrappers.dfy | `Option` and `Result` |
| `CrazyflieLink` | link.dfy | the commands sent to the vehicle and a `Link` class that logs them |
| `Estimator` | estimator.dfy | the Kalman reset parameters and the rolling variance window that waits for convergence (the same code appears in both the wrapper and the toolkit) |
| `QflyCrazyflie` | qfly_crazyflie.dfy | the safe volume, the setpoint `Pose` class and the `QualisysCrazyflie` class |
| `Quadkit` | quadkit.dfy | `Float` (a real or NaN), the `Pose` record, the QTM conversions, `strip`, the body-index table and the `QtmWrapper` class |
| `RrtTree` | rrt_tree.dfy | the tree as a sequence of nodes with parent indices: costs, lineages, reparenting, rewiring, the goal parent and the non-redundant waypoints |
| `RrtStarPlanner` | rrt_star.dfy | the `RrtStar` class, whose methods update `vertex` and `path` in place and are proved against the `RrtTree` functions |

How the model represents the source:

- **Vehicle effects.** Every effect on the vehicle (a parameter write, a setpoint, opening or closing the link or the feed) is appended to `Link.log`. Each method's contract states exactly which commands it appends.
- **Tree nodes.** A node's `parent` is an index into the vertex list. Termination of the parent walks is the `Acyclic` invariant, stated with an explicit fuel bound. `CostOf` and `LineageOf` are the cost and the chain, and they are independent of the fuel chosen.
- **Distances and collisions.** The planner's `math.hypot` distance and its obstacle test are parameters. The distance is assumed non-negative. `new_state` is the parameter `steer`. The search-radius term `search_radius * sqrt(log n / n)` is the parameter `shrinkingRadius`.
- **Non-determinism.** Randomness becomes input sequences. The values the logger yields are a sequence of `Sample`s. The sampled points of `planning` are a sequence of `Point`s.

## Model

| member | source | states |
|---|---|---|
| CrazyflieLink.Link.Send | qfly/crazyflie.py:180-181 | one command is appended to the vehicle log, and nothing else |
| Estimator.MinIsLeast | quadkit_crazyflie.py:232-236 | `min` of a non-empty window is one of its elements and at most every element |
| Estimator.MaxIsGreatest | quadkit_crazyflie.py:233-237 | `max` of a non-empty window is one of its elements and at least every element |
| Estimator.SpreadBelow | quadkit_crazyflie.py:242-244 | max − min is below t exactly when every pairwise difference in the window is below t |
| Estimator.InitialWindow | quadkit_crazyflie.py:215-217 | the history starts as ten entries of 1000 |
| Estimator.Slide | quadkit_crazyflie.py:225-230 | one `append` then `pop(0)`: the window keeps its length, drops its oldest entry and ends with the new value |
| Estimator.Trace | quadkit_crazyflie.py:225-230 | one variance component per logged sample |
| Estimator.WindowAfter | quadkit_crazyflie.py:225-230 | after any number of append-then-pop steps the window still holds ten entries |
| Estimator.SlideWindowAfter | quadkit_crazyflie.py:225-226 | one append-then-pop step moves the window to the window of the extended stream |
| Estimator.WindowAfterIsLastTen | quadkit_crazyflie.py:215-230 | the window is the last ten of the initial entries followed by the stream |
| Estimator.WindowAfterIsLastSamples | quadkit_crazyflie.py:225-230 | after at least ten samples the window is exactly the last ten samples |
| Estimator.TraceExtend | quadkit_crazyflie.py:222-225 | the component trace of one more sample is the old trace plus that sample's component |
| Estimator.HistoryAt | quadkit_crazyflie.py:215-230 | the per-axis history after n samples has ten entries |
| Estimator.AdvanceHistory | quadkit_crazyflie.py:225-230 | appending the next sample and dropping the head gives the history one sample later |
| Estimator.QuietThroughEach | quadkit_crazyflie.py:221-245 | if the loop has not stopped through sample n, no earlier sample settled all three axes |
| Estimator.EachQuietThrough | quadkit_crazyflie.py:221-245 | if no sample up to n settled all three axes, the loop is still running after n |
| Estimator.QuietThroughMeans | quadkit_crazyflie.py:221-245 | both directions of the above: still waiting after n iff no sample up to n settled |
| Estimator.ConvergesAtFirst | quadkit_crazyflie.py:242-245 | the wait stops at the FIRST sample of all-three-axes spread below 0.001; if none exists it never stops (`None`) |
| Estimator.WaitForConvergence | quadkit_crazyflie.py:221-245 | the loop returns exactly the convergence point of the sample stream |
| Estimator.StableStreamConverges | quadkit_crazyflie.py:221-245 | ten consecutive samples that vary by less than 0.001 on every axis guarantee the wait ends no later |
| Estimator.CalmSettles | quadkit_crazyflie.py:232-244 | a calm stretch of ten samples makes that axis's spread below the threshold |
| Estimator.SetupEstimator | quadkit_crazyflie.py:189-245 | sends the estimator selection, the quaternion deviation and the reset pulse 1 then 0, in that order; then waits on the stream until it converges |
| Estimator.ResetCommands | quadkit_crazyflie.py:194-203 | four writes: estimator "2", quaternion deviation 0.6, then the reset flag "1" followed by "0" |
| QflyCrazyflie.AsWrittenContainsNothing | qfly/crazyflie.py:82-84 | the written test `o + e < p < o - e` can hold only in a volume of negative expanse |
| QflyCrazyflie.InsideAsWritten | qfly/crazyflie.py:82-84 | the containment chain exactly as written, `o + e < p < o - e` on each of the three axes (a definition; its meaning is stated by AsWrittenContainsNothing) |
| QflyCrazyflie.Inside | qfly/crazyflie.py:82-84 | the intended strict containment `o - e < p < o + e` on each of the three axes (a definition; used by IsSafeIntended, FaceIsOutside and ClampedInsideOrOnFace) |
| QflyCrazyflie.AsWrittenRejectsOrigin | qfly/crazyflie.py:82-84 | the centre of the unit volume is inside by the intended test and rejected by the written one |
| QflyCrazyflie.FaceIsOutside | qfly/crazyflie.py:82-84 | the containment is strict: a point on any face of the cube is not inside |
| QflyCrazyflie.ClampAxis | qfly/crazyflie.py:113 | the clamped coordinate stays within [o − e, o + e], is unchanged when already there, and otherwise becomes the nearest bound |
| QflyCrazyflie.ClampedInsideOrOnFace | qfly/crazyflie.py:113 | a clamped target is strictly inside the volume or on one of its faces |
| QflyCrazyflie.Pose.constructor | qfly/crazyflie.py:37 | a pose holds the given position, an optional yaw and no rotation matrix |
| QflyCrazyflie.Pose.Clamp | qfly/crazyflie.py:113 | each coordinate is clamped in place; yaw and rotation are kept |
| QflyCrazyflie.SpeedLimitCommands | qfly/crazyflie.py:178-181 | the horizontal and vertical velocity caps, both set to the given speed |
| QflyCrazyflie.MarkerCommands | qfly/crazyflie.py:55-58 | the front, right, back and left active markers are set from the first four IDs, in that order |
| QflyCrazyflie.DescentAt | qfly/crazyflie.py:101-102 | the staircase from n has n steps, and step k hovers at (n − k)/10 m |
| QflyCrazyflie.Descent | qfly/crazyflie.py:101-102 | the staircase from n consists of exactly n hover setpoints |
| QflyCrazyflie.LandingShape | qfly/crazyflie.py:96-104 | landing sends the caps 0.3 and 0.03, then five hovers at strictly decreasing positive heights, then one stop: eight commands |
| QflyCrazyflie.LandingCommands | qfly/crazyflie.py:96-104 | eight commands: two parameter writes, the five hovers of the staircase, and a final stop |
| QflyCrazyflie.LandingHeights | qfly/crazyflie.py:101-102 | the hover heights are exactly 0.5, 0.4, 0.3, 0.2, 0.1 |
| QflyCrazyflie.QualisysCrazyflie.constructor | qfly/crazyflie.py:18-43 | stores the body name, URI, world and limits, with defaults 200, 1.0 and [101, 102, 103, 104]; no vehicle handle yet; the pose is at the origin; the log is empty |
| QflyCrazyflie.QualisysCrazyflie.IsSafe | qfly/crazyflie.py:71-88 | as written: unsafe once tracking is lost for more than the limit; safe only under the inverted test; so never safe in a volume of non-negative expanse |
| QflyCrazyflie.QualisysCrazyflie.IsSafeIntended | qfly/crazyflie.py:71-88 | corrected: safe exactly when tracking is within the limit and the pose is strictly inside on every axis (both directions); so a tracked pose at the centre of a real volume is safe |
| QflyCrazyflie.QualisysCrazyflie.SetSpeedLimit | qfly/crazyflie.py:178-181 | appends exactly the two velocity-cap writes |
| QflyCrazyflie.QualisysCrazyflie.SetupEstimator | qfly/crazyflie.py:121-176 | appends the four estimator parameter writes and waits until the variance stream converges |
| QflyCrazyflie.QualisysCrazyflie.Enter | qfly/crazyflie.py:45-65 | open link, speed caps at `maxVel`, four marker writes, estimator reset, in that order; the callback is registered; the convergence point is the stream's |
| QflyCrazyflie.QualisysCrazyflie.Exit | qfly/crazyflie.py:67-69 | the feed is closed before the radio link |
| QflyCrazyflie.QualisysCrazyflie.Land | qfly/crazyflie.py:90-104 | the loop appends exactly the landing sequence |
| QflyCrazyflie.QualisysCrazyflie.SafePositionSetpoint | qfly/crazyflie.py:106-119 | unsafe: no command and the target is untouched; safe: the target is clamped in place, a missing yaw becomes 0, and exactly one position setpoint with the clamped target is sent |
| QflyCrazyflie.QualisysCrazyflie.SetPose | qfly/crazyflie.py:183-184 | the stored pose becomes the delivered one; the other state is kept |
| Quadkit.Div1000 | quadkit_crazyflie.py:51-53 | millimetres to metres: NaN stays NaN, and a number is divided by 1000 |
| Quadkit.IsValid | quadkit_crazyflie.py:72-74 | a pose is valid exactly when none of x, y, z is NaN (`x == x` fails only for NaN; a definition) |
| Quadkit.Transposed | quadkit_crazyflie.py:47-50 | the 3×3 rotation matrix is built column-major from QTM's nine entries: m[i][j] = flat[3j + i] |
| Quadkit.ColumnMajor | quadkit_crazyflie.py:47-50 | flattening a 3×3 matrix column by column |
| Quadkit.TransposeRoundTrip | quadkit_crazyflie.py:47-50 | flattening the built matrix gives back QTM's nine entries, and building from a flattened matrix gives back the matrix |
| Quadkit.FromQtm6d | quadkit_crazyflie.py:45-54 | position in metres, no Euler angles, the transposed rotation; the pose is valid iff all three coordinates are numbers |
| Quadkit.FromQtm6dEuler | quadkit_crazyflie.py:57-64 | position in metres; roll, pitch and yaw are the third, second and first angles; no rotation; valid iff the coordinates are numbers |
| Quadkit.Sqrt | quadkit_crazyflie.py:248-252 | a negative argument gives 0.0; otherwise the result is `math.sqrt`, so never negative; NaN falls through to `math.sqrt` and stays NaN |
| Quadkit.TrimStartSpec | quadkit_crazyflie.py:114 | trimming the front removes exactly a whitespace prefix and leaves a suffix not starting with whitespace |
| Quadkit.TrimEndSpec | quadkit_crazyflie.py:114 | trimming the back removes exactly a whitespace suffix and leaves a prefix not ending with whitespace |
| Quadkit.StripSpec | quadkit_crazyflie.py:114 | `strip` returns a slice s[i..j] whose outside characters are all whitespace and whose ends are not |
| Quadkit.Strip | quadkit_crazyflie.py:114 | `strip` never lengthens a name, and a name it does not shorten is returned unchanged |
| Quadkit.StripIdempotent | quadkit_crazyflie.py:114 | stripping twice is stripping once |
| Quadkit.IndexedKeys | quadkit_crazyflie.py:113-114 | after the loop a key is in the table iff it was there before or some name strips to it |
| Quadkit.Indexed | quadkit_crazyflie.py:113-114 | the table keeps every old key and gains the stripped form of every enumerated name |
| Quadkit.IndexedKeepsOthers | quadkit_crazyflie.py:113-114 | an old key no name strips to keeps its entry |
| Quadkit.IndexedLastWins | quadkit_crazyflie.py:113-114 | for a listed body, the entry is the index of the LAST name that strips to it |
| Quadkit.ControllersAfterStops | quadkit_crazyflie.py:161-165 | after the first raising iteration the rest of the controller loop does not run |
| Quadkit.ControllerStep | quadkit_crazyflie.py:161-165 | one iteration keeps the list's length, can change only entry i, and changes nothing when it raises |
| Quadkit.ControllersAfter | quadkit_crazyflie.py:161-165 | the whole loop keeps the list's length and leaves entries past the enumerated names untouched |
| Quadkit.ControllersAfterKeepsValid | quadkit_crazyflie.py:161-165 | the controller list keeps its length, and all-valid poses stay all valid |
| Quadkit.ControllersAfterSpec | quadkit_crazyflie.py:161-165 | when the loop completes, each listed controller's entry is its fresh pose if valid, otherwise its previous pose; entries past the list are untouched |
| Quadkit.OnPacketAsWritten | quadkit_crazyflie.py:129-145 | as written: a packet missing a component returns quietly, and every packet with both components raises NameError at `sef` |
| Quadkit.AsWrittenDropsValidPose | quadkit_crazyflie.py:145-151 | a packet carrying a valid vehicle pose that the written handler drops with NameError |
| Quadkit.ConnectAsWritten | quadkit_crazyflie.py:113-126 | as written: the table is filled, then reading the never-stored `cf_body_name` raises AttributeError, so streaming never starts |
| Quadkit.QtmWrapper.constructor | quadkit_crazyflie.py:83-92 | corrected: also stores the vehicle body name (which `__init__` does not) and takes the controller names and poses as parameters; no callback, an empty table, stay-open set, not streaming, no pose, loss counter 0 |
| Quadkit.QtmWrapper.Connect | quadkit_crazyflie.py:107-126 | corrected: the table indexes the stripped names; the wrapper stops staying open iff the vehicle's body is missing; streaming starts |
| Quadkit.QtmWrapper.CfLookup | quadkit_crazyflie.py:145-147 | KeyError exactly when the body name is not in the table, IndexError exactly when its index is past the component; otherwise the pose built from that body |
| Quadkit.QtmWrapper.OnPacket | quadkit_crazyflie.py:129-165 | corrected: a missing component changes nothing; a failed vehicle lookup raises and changes nothing; a valid pose is stored, and if a callback is registered it is delivered once and the loss counter is reset; an invalid pose adds exactly one to the counter; the controller poses become the loop's result |
| Quadkit.QtmWrapper.UpdateControllers | quadkit_crazyflie.py:161-165 | the loop's controller poses and raised error are those of `ControllersAfter`; the vehicle state is unchanged |
| RrtTree.Fuel | rrt_2D/rrt_star.py:197-199 | in an acyclic tree some fuel bound reaches the root from every vertex |
| RrtTree.FuelIrrelevant | rrt_2D/rrt_star.py:193-201 | the cost and the chain do not depend on which sufficient fuel is used |
| RrtTree.CostOfStep | rrt_2D/rrt_star.py:193-201 | a root costs 0 and is its own chain; otherwise the cost is the parent's cost plus the edge, and the chain is the vertex followed by the parent's chain |
| RrtTree.PathCost | rrt_2D/rrt_star.py:193-201 | the cost along a chain with an explicit step bound; a root costs 0 |
| RrtTree.CostOf | rrt_2D/rrt_star.py:193-201 | `cost(node)`: the fuel-free tree cost; a root costs 0 |
| RrtTree.LineageCostBound | rrt_2D/rrt_star.py:193-201 | every vertex on a chain costs between 0 and the cost of the chain's start |
| RrtTree.PathCostNonNegative | rrt_2D/rrt_star.py:193-201 | costs are never negative |
| RrtTree.OnLineageCostBound | rrt_2D/rrt_star.py:193-201 | an ancestor never costs more than its descendant |
| RrtTree.LineageOf | rrt_2D/rrt_star.py:221-226 | every vertex on the chain is in the tree |
| RrtTree.LineageShape | rrt_2D/rrt_star.py:221-226 | the chain starts at the vertex; each entry's parent is the next entry; it ends at a root |
| RrtTree.Lineage | rrt_2D/rrt_star.py:221-226 | the chain of parents from i within the step bound: non-empty, no longer than the bound plus one, and starting at i |
| RrtTree.LineageOfShape | rrt_2D/rrt_star.py:221-226 | the same shape for the fuel-free chain |
| RrtTree.AvoidingChainSurvives | rrt_2D/rrt_star.py:143 | reparenting a vertex not on a chain leaves that chain intact |
| RrtTree.Reparent | rrt_2D/rrt_star.py:143 | `node.parent = w` on vertex a: the tree keeps its size and a's position, a's parent becomes w, and every other vertex is unchanged |
| RrtTree.ChainThroughRoot | rrt_2D/rrt_star.py:150 | after reparenting, every chain still reaches a root |
| RrtTree.ReparentKeepsAcyclic | rrt_2D/rrt_star.py:150 | giving a vertex a parent outside its own subtree keeps the tree acyclic |
| RrtTree.CheaperMeansNotAncestor | rrt_2D/rrt_star.py:149-150 | if reaching i through w is strictly cheaper, then i is not an ancestor of w, so the rewire creates no cycle |
| RrtTree.ChildlessNotOnLineage | rrt_2D/rrt_star.py:143 | a vertex with no children lies on no other vertex's chain |
| RrtTree.AppendKeepsChain | rrt_2D/rrt_star.py:60 | appending a node leaves every old chain, cost and lineage as it was |
| RrtTree.AppendLeafKeepsAcyclic | rrt_2D/rrt_star.py:58-60 | appending a node whose parent is in the tree keeps it acyclic and all old costs unchanged, and the new node has no children |
| RrtTree.ReparentChildless | rrt_2D/rrt_star.py:143 | re-hanging a childless vertex under any other vertex keeps the tree acyclic |
| RrtTree.RewireStep | rrt_2D/rrt_star.py:147-150 | one rewire step keeps the tree acyclic and its size |
| RrtTree.RewireAll | rrt_2D/rrt_star.py:145-150 | the whole rewire keeps the tree acyclic and its size |
| RrtTree.RewireFrame | rrt_2D/rrt_star.py:145-150 | the rewire moves no vertex, touches only the listed neighbours, and gives each of them either its old parent or the new vertex |
| RrtTree.RewireKeepsRoot | rrt_2D/rrt_star.py:145-150 | a root stays a root through the rewire |
| RrtTree.ArgMin | rrt_2D/rrt_star.py:142 | `np.argmin`: an index of the least element, the first among equal ones |
| RrtTree.Filter | rrt_2D/rrt_star.py:182-183 | the comprehension keeps the in-range indices satisfying the condition, in ascending order, and all of them |
| RrtTree.NearestNeighbor | rrt_2D/rrt_star.py:187-190 | the index of the nearest vertex; the first on ties |
| RrtTree.Positions | rrt_2D/rrt_star.py:224-226 | the positions of the listed vertices, in order |
| RrtTree.GoalCandidates | rrt_2D/rrt_star.py:153-154 | exactly the vertices within `step_len` of the goal, in ascending order |
| RrtTree.FreeCandidates | rrt_2D/rrt_star.py:157-158 | exactly the candidates whose edge to the goal is collision-free |
| RrtTree.GoalCosts | rrt_2D/rrt_star.py:157 | one cost per listed vertex |
| RrtTree.GoalParentAsWritten | rrt_2D/rrt_star.py:152-161 | as written: no candidates gives the last vertex; candidates that are all blocked raise (`argmin` of an empty list); otherwise the result is one of the candidates, so within `step_len` of the goal; any result is a vertex |
| RrtTree.GoalParentAsWrittenPicksBlocked | rrt_2D/rrt_star.py:157-159 | a two-vertex tree where the written code picks the vertex whose edge to the goal collides, while the intended choice is the free one |
| RrtTree.GoalParent | rrt_2D/rrt_star.py:152-161 | corrected: with a free candidate, the result is one within `step_len` of the goal, collision-free and cheapest; otherwise the last vertex |
| RrtTree.Scan | rrt_2D/rrt_star.py:77-82 | the backward scan is non-empty and starts with the path's last point |
| RrtTree.ScanLength | rrt_2D/rrt_star.py:77-82 | the scan keeps at most one point per visited waypoint |
| RrtTree.ScanWithin | rrt_2D/rrt_star.py:77-82 | the scan only keeps points of the visited part of the path |
| RrtTree.Reverse | rrt_2D/rrt_star.py:88 | the reversed list has the same length with entries mirrored |
| RrtTree.NonRedundantSpec | rrt_2D/rrt_star.py:71-88 | the thinned path has between 2 and len + 1 points, starts with path[0], ends with path[-1] and uses only waypoints of the path |
| RrtTree.NonRedundant | rrt_2D/rrt_star.py:71-88 | step 1 of `smoothing`: at least two points, the first waypoint first and the last waypoint last |
| RrtStarPlanner.NewCosts | rrt_2D/rrt_star.py:140 | one cost per neighbour |
| RrtStarPlanner.PositionsCons | rrt_2D/rrt_star.py:224 | the positions of a vertex followed by a chain are its position followed by the chain's positions |
| RrtStarPlanner.RrtStar.constructor | rrt_2D/rrt_star.py:28-37 | the tree is the start alone, the path is empty, and the planner is valid |
| RrtStarPlanner.RrtStar.Cost | rrt_2D/rrt_star.py:193-201 | the parent walk returns the tree cost of the vertex, which is non-negative |
| RrtStarPlanner.RrtStar.GetNewCost | rrt_2D/rrt_star.py:163-166 | the cost of the start vertex plus the edge to the end point |
| RrtStarPlanner.RrtStar.Radius | rrt_2D/rrt_star.py:178-179 | `min`: for n = len(vertex) + 1, the search radius is at most `step_len` and at most the shrinking term, and equals one of them |
| RrtStarPlanner.RrtStar.FindNearNeighbor | rrt_2D/rrt_star.py:177-185 | over the given vertex list, in ascending order, exactly the vertices within the radius for that list whose segment from the new point is free |
| RrtStarPlanner.RrtStar.ChooseParent | rrt_2D/rrt_star.py:139-143 | the new vertex is re-hung under the first neighbour of least cost-through, and nothing else changes; the tree stays valid |
| RrtStarPlanner.RrtStar.Rewire | rrt_2D/rrt_star.py:145-150 | the tree becomes `RewireAll` of the old tree and stays valid |
| RrtStarPlanner.RrtStar.GoalCostList | rrt_2D/rrt_star.py:157-158 | the goal distance plus cost of each listed vertex |
| RrtStarPlanner.RrtStar.SearchGoalParent | rrt_2D/rrt_star.py:152-161 | corrected: returns `GoalParent` of the tree |
| RrtStarPlanner.RrtStar.ExtractPath | rrt_2D/rrt_star.py:217-228 | the goal, then the positions along the chain from the vertex to the root: one more point than the chain, at least two, with the vertex's own position second |
| RrtStarPlanner.RrtStar.RemoveRedundantWaypoints | rrt_2D/rrt_star.py:71-88 | an empty path gives []; otherwise the reverse of the backward scan plus path[0] |
| RrtStarPlanner.RrtStar.Inserted | rrt_2D/rrt_star.py:58-64 | the tree after appending the new vertex under its nearest vertex, choosing its parent and rewiring: acyclic, one vertex larger |
| RrtStarPlanner.RrtStar.GrowStep | rrt_2D/rrt_star.py:51-64 | one loop iteration on a tree value: unchanged when the step collides, otherwise `Inserted` with the near neighbours; acyclic and at most one vertex larger |
| RrtStarPlanner.RrtStar.GrowAll | rrt_2D/rrt_star.py:49-64 | the loop over the samples as a left fold of `GrowStep`: acyclic and grown by at most one vertex per sample |
| RrtStarPlanner.RrtStar.GrowStepKeepsPositions | rrt_2D/rrt_star.py:58-64 | a growth step moves no vertex, and a step that grows puts the new vertex at the steered point |
| RrtStarPlanner.RrtStar.GrowAllKeepsPositions | rrt_2D/rrt_star.py:49-64 | the whole loop moves no vertex that was in the tree before it |
| RrtStarPlanner.RrtStar.Insert | rrt_2D/rrt_star.py:59-64 | appends the new vertex; with neighbours, the tree becomes the rewire of the tree with the cheapest parent chosen; old positions are kept; valid; the new tree is `Inserted` of the old one |
| RrtStarPlanner.RrtStar.Grow | rrt_2D/rrt_star.py:51-64 | the tree grows by one vertex, at the steered point, exactly when the step from the nearest vertex is collision-free; otherwise it is unchanged; the new tree, parent links included, is `GrowStep` of the old one |
| RrtStarPlanner.RrtStar.Planning | rrt_2D/rrt_star.py:49-67 | the final tree is `GrowAll` of the initial tree over the samples, one growth step per sample in order; it stays valid, grows by at most one vertex per sample and moves no vertex; the path is the extracted path from the corrected goal parent |

## Left out

- Radio, the QTM network protocol, threads, `asyncio`, sleeps and `print` are not modelled. The link is a command log, the QTM connection is the names it reports and the packets it delivers, and the logger is a finite sample sequence.
- `_send_extpose` and `send_extpose_rot_matrix` (the quaternion from the rotation matrix) are not modelled. They are floating-point computations sent to the vehicle.
- QflyCrazyflie.QualisysCrazyflie.SetPose: `_set_pose` calls `_send_extpose` with four arguments while it takes one, so every call raises TypeError after storing the pose. The model keeps only the store.
- `qfly.Pose` and `qfly.QtmWrapper` live in files that are not part of this model:
  - QflyCrazyflie.ClampAxis: `Pose.clamp` is assumed to clamp each coordinate independently to the cube.
  - QflyCrazyflie.QualisysCrazyflie.IsSafe reads `qtm.tracking_loss` as the field `trackingLoss`. The wrapper that counts it, and its QTM thread, are not modelled. So the initial value 0 that the constructor gives `trackingLoss` is the model's, not something qfly/crazyflie.py shows.
  - QflyCrazyflie.QualisysCrazyflie.Enter requires at least four marker IDs. With fewer, the source raises IndexError. That path is not modelled.
- Floating point is modelled with reals:
  - Quadkit's `Float` adds only NaN, which `is_valid` tests.
  - Quadkit.Sqrt takes `math.sqrt` as a parameter that is never negative on non-negative input.
  - In the planner, reals stand for floats, and the distance is a non-negative parameter rather than `math.hypot`.
- `Pose.__init__` of the toolkit is the `Quadkit.Pose` datatype with its defaults. `distance_to` and `__str__` are not modelled.
- RrtStar: `generate_random_node`, `goal_sample_rate`, `iter_max` and `new_state`'s trigonometry are replaced by the `samples` sequence and the `steer` parameter.
- RrtStar: the `node_new and` test is always true in the source, so it is dropped.
- RrtStar: the `k % 500` progress print is not modelled.
- RrtStar: `update_cost` is never called and depends on a `child` attribute no node has, so it is not modelled.
- RrtStar: plotting is not modelled.
- RrtStar: step 2 of `smoothing` (B-spline fitting and resampling with scipy) is not modelled. `RemoveRedundantWaypoints` returns the non-redundant path instead of storing the resampled one.
- RrtStarPlanner.RrtStar.SearchGoalParent and Planning use the corrected goal-parent choice (see Findings), not the written one.
- RrtTree.GoalParent: when every candidate's edge to the goal collides, the source raises ValueError from `np.argmin([])`. The corrected member instead falls back to the last vertex, as the source does when there are no candidates at all. That vertex need not be within `step_len` of the goal.
- QflyCrazyflie.QualisysCrazyflie.Exit: `__exit__(self)` (qfly/crazyflie.py:67) lacks the three exception arguments that a `with` statement passes. So leaving any `with` block raises TypeError before the feed or the link is closed. The contract describes only a direct call without arguments.
- Quadkit.QtmWrapper: `controller_body_names` (read at quadkit_crazyflie.py:161) and `controller_poses` (assigned by subscript at :165) are module globals that the file never defines. The model makes the controller names a constructor parameter and the poses a field.
- Quadkit.QtmWrapper: `cf_pose` and `cf_trackingLoss` are declared `global` at :130. They are created by assignment at :151 and :155, and the model keeps them as the fields `cfPose` and `cfTrackingLoss`. The counter that :157 increments is a different one: the attribute `self.cf_trackingLoss`, which is never initialised. Keeping a single loss counter, and storing `cf_body_name`, are corrections (see Findings).
- QflyCrazyflie.QualisysCrazyflie.SafePositionSetpoint is gated by `IsSafeIntended` (see Findings). With the written `IsSafe` it would never send anything in a real volume.

## Findings

| source | as written | input that shows it | evidently intended | confidence | as-written member | corrected member |
|---|---|---|---|---|---|---|
| qfly/crazyflie.py:82-84 | `origin + expanse < p < origin - expanse` on each axis | volume at the origin with expanse 1, pose at the origin: rejected | `origin - expanse < p < origin + expanse` | high; not executed | QflyCrazyflie.QualisysCrazyflie.IsSafe, QflyCrazyflie.AsWrittenRejectsOrigin | QflyCrazyflie.QualisysCrazyflie.IsSafeIntended |
| quadkit_crazyflie.py:145-157 | `sef.cf_body_name` (an undefined name); `cf_body_name` is never stored by `__init__`; `self.cf_trackingLoss` is never initialised | any packet with both components raises NameError, even one whose vehicle pose is valid | look the vehicle body up by its stored name, and keep one loss counter | high; not executed | Quadkit.OnPacketAsWritten, Quadkit.AsWrittenDropsValidPose | Quadkit.QtmWrapper.OnPacket |
| quadkit_crazyflie.py:119 | `self.cf_body_name` is read, but `__init__` never stores it | any connection: AttributeError after the table is filled, so streaming never starts | check the stored vehicle body name, then stream | high; not executed | Quadkit.ConnectAsWritten | Quadkit.QtmWrapper.Connect |
| rrt_2D/rrt_star.py:157-159 | costs are kept only for collision-free candidates, but `argmin` of them indexes the unfiltered `node_index` | candidates [0, 1], vertex 0's edge to the goal blocked: the written code returns 0, the blocked one | index the filtered candidates with the argmin (when none is free the source raises; the corrected member falls back to the last vertex, a choice of this model) | high; not executed | RrtTree.GoalParentAsWritten, RrtTree.GoalParentAsWrittenPicksBlocked | RrtTree.GoalParent |
