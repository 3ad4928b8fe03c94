# Waypoint followers of three-yuka-maze, in Dafny

This project models the per-frame waypoint followers and the path-request
policy of three demo controllers. In each demo, agents move across a
navigation mesh.

- `Patrol` (example.04.js). Every frame, `moveAgents` handles each agent in
  turn:
  - An agent with a path either walks toward its front waypoint or drops it.
  - After a move, the ground clamp nudges the agent's height toward the
    closest nav-mesh region.
  - A drop that leaves exactly one waypoint advances the agent's patrol
    cursor (`wp_index`).
  - An agent with no path whose Run clip is playing calls `triggerMove`.
    That asks the library for a new path for *every* agent, toward the tour
    point each agent's cursor selects. The cursor is first reset to 0 when
    it has reached the tour's length.
- `FollowClick` (example.03.js). A click asks the library for a path to the
  clicked point for every agent. Every frame, each agent with a path
  either moves or drops its front waypoint. Run starts on the first frame
  an agent has a path; on the next frame without one, Run stops and Idle
  starts; before its first path an agent plays no clip.
- `Steering` (example.02.js). A click empties `paths`. Each vehicle that gets
  a non-empty path then has its follow path refilled and activated. That
  follow path is pushed onto `paths`. Each vehicle's render callback copies
  the vehicle's position to its mesh, then clamps the vehicle's position.
- `Nav` holds the shared vocabulary:
  - points, as exact real triples;
  - the library's answers: `Found(points)`, `NoPath` (null) and `Fault`
    (the query threw);
  - the arrival test `lengthSq() > 0.5 * 0.005`;
  - the truthy replacement `if (path) paths[i] = path`.

Each demo's module-level parallel arrays become the fields of one class
(`PatrolDemo`, `FollowClickDemo`, `SteeringDemo`). The class keeps the
positional indexing between the arrays. In `PatrolDemo` and
`FollowClickDemo`, `State()` packs the fields into a `Snapshot` value, and
each loop method is proved to produce a pure function of the old snapshot
(`TriggerAll`, `AgentFrame`, `MoveUpTo`, `Frame`). `SteeringDemo`'s click
handler is proved to leave `paths` equal to the pure function `Followers`
of the vehicles' positions. The lemmas about those functions state the
demo's rules.

The following collaborators are parameters of the methods and functions:

- The path-finding library is an `Oracle`. It maps the agent's position and
  a target to a `PathResult`. The target is `None` for JavaScript's
  `undefined`, which example.04.js passes once `wp_index` is past the end
  of `waypoints`.
- The nav-mesh region lookup is a `GroundQuery` returning the closest
  region's centroid height.
- The move step `position.add(velocity.normalize().multiplyScalar(dt * speed))`
  is a `Stepper`.
- The frame time is a real number.

Points of the code worth knowing, each of which the model follows:

- example.04.js never stops Run. The stop is commented out, so a patrolling
  agent's Run clip, once started, plays forever (`FrameKeepsRun`).
- The code does not keep the cursor below `waypoints.length`: it can equal
  the length. The code does not cycle the tour either. It is only reset when an
  empty path is found with Run playing. `FrameKeepsCursorInRange` proves
  that it stays in 0 .. |waypoints|, both ends included. At the upper end,
  at most one waypoint is left. This holds provided the library never
  returns a path toward `undefined`.
- The cursor advances when a drop leaves exactly one waypoint, not when a
  route completes. A `triggerMove` caused by another agent can also replace
  a path in the middle of a route.
- The per-iteration lemmas (`EmptyPathIteration`, `StartRunIteration`,
  `MoveOrDropIteration`, `CursorIteration`) describe one agent's turn, not
  a whole frame. Within one `moveAgents` call, an agent whose path is empty
  when the frame starts can still move in that frame: an earlier agent's
  `triggerMove` may hand it a path before its turn. `Patrol.MoveUpTo` folds
  the iterations in index order, so `Patrol.Frame` includes this.
- An empty array is truthy in JavaScript. So in example.03.js and
  example.04.js, an empty answer replaces the current path. Only
  example.02.js skips empty answers (`!path.length`).
- example.03.js does not catch a thrown query. The first fault ends the
  click handler, and the agents after it keep their old paths
  (`FollowClick.FollowClickDemo.OnClick`).
- The render clamp of example.02.js sets `x`, not `y`, to 0.4 when `y` is
  below 0.4. It is modelled verbatim (`RenderClamp`).
- Neither example.03.js nor example.04.js limits a step to the remaining
  distance, and only example.04.js adjusts the height. It does so only on
  frames where the agent moves.

## Model

| member | source | states |
|---|---|---|
| Nav.Replaced | example.03.js:191-193 | a truthy answer (`Found`, even an empty one) replaces the path wholesale; `null` and a fault keep the current path |
| Patrol.GroundClamp | example.04.js:270-280 | with no region, or a centroid within 0.1, y stays; otherwise y moves by exactly 0.02 toward the centroid, so the gap shrinks strictly and never changes sign |
| Patrol.TriggerAll | example.04.js:197-216 | positions, clips and cursors stay; each agent's path is replaced exactly when its own query toward `waypoints[wp_index]` returns a path, and kept on `null` or a caught error; the target is `Patrol.WaypointAt` of the cursor, `None` (`undefined`) past the tour's end (line 208) |
| Patrol.AgentFrame | example.04.js:233-289 | one iteration keeps every array at the same length |
| Patrol.MoveUpTo | example.04.js:233-289 | any number of iterations keeps every array at the same length |
| Patrol.Frame | example.04.js:232-290 | a whole `moveAgents` call keeps every array at the same length |
| Patrol.EmptyPathIteration | example.04.js:237-251 | with no path the agent does not move and no clip changes; with Run stopped nothing changes at all; with Run playing the cursor is reset to 0 exactly when it equals the tour's length, and then every agent's path is replaced by the answer toward its cursor's tour point (the reset one for this agent) when truthy |
| Patrol.StartRunIteration | example.04.js:253-257 | with a path, Run is playing afterwards; if it was not, Idle is stopped; no other agent's clips change |
| Patrol.MoveOrDropIteration | example.04.js:259-288 | with a path, the agent either moves to the ground-clamped step and keeps its path (squared distance > 0.0025), or drops exactly the front waypoint and keeps its position and height; no other agent's position or path changes |
| Patrol.CursorIteration | example.04.js:281-288 | with a path, the cursor grows by one exactly when a drop leaves exactly one waypoint, otherwise it stays; no other cursor changes |
| Patrol.FrameKeepsRun | example.04.js:237-257 | over a whole frame, triggered requests included, no agent's Run stops and no agent's Idle starts (Idle is only ever stopped, line 255), so from the constructor's state Idle never plays; Idle and Run do not end up playing together unless they already did |
| Patrol.FrameKeepsCursorInRange | example.04.js:237-288 | if the library gives no path toward `undefined`, a frame keeps every cursor within 0 .. waypoints.length, with at most one waypoint left when it equals the length |
| Patrol.PatrolDemo.constructor | example.04.js:151-159 | one agent per blueprint at its spawn position with its speed, no path, no clip playing, cursor 0 |
| Patrol.PatrolDemo.TriggerMove | example.04.js:197-216 | the loop over agents yields exactly `TriggerAll` of the old state |
| Patrol.PatrolDemo.MoveAgent | example.04.js:234-288 | one loop body yields exactly `AgentFrame` of the old state |
| Patrol.PatrolDemo.MoveAgents | example.04.js:232-290 | the loop yields exactly `Frame` of the old state |
| FollowClick.AgentStep | example.03.js:210-240 | one loop body: afterwards Run plays exactly when the agent had a path (an absent or empty path counts as none, `Nav.PathLength`, line 213), and Idle and Run do not both play unless they already did; the path is kept or loses exactly its front waypoint, so it never grows; a change of position happens only with a path, which is then kept (the arrival test is `Nav.StillFar`, `Nav.LengthSq` of the gap above 0.5 * 0.005, line 231) |
| FollowClick.NoPathStep | example.03.js:213-220 | without a path the agent neither moves nor changes path; if Run was playing it stops and Idle plays; otherwise nothing changes |
| FollowClick.PathStep | example.03.js:222-240 | with a path Run plays afterwards (Idle stopped if Run was not playing); the agent either takes the move step and keeps its path, or drops exactly the front waypoint and stays put |
| FollowClick.MoveUpTo | example.03.js:208-241 | any number of iterations keeps every array at the same length |
| FollowClick.Frame | example.03.js:208-242 | a whole `moveAgents` call keeps every array at the same length |
| FollowClick.MoveUpToPointwise | example.03.js:208-241 | after k iterations the first k agents have each taken their own step from the frame's starting state and the rest are untouched: an iteration changes only its own agent's entries |
| FollowClick.FramePointwise | example.03.js:208-242 | in a frame every agent's new entries depend only on its own old entries |
| FollowClick.FrameEffect | example.03.js:213-240 | per frame: no path means no move; an arrival drops exactly one waypoint without moving; otherwise the agent moves and keeps its path; path length drops by exactly one on arrival and is otherwise kept; afterwards Run plays exactly when the agent had a path, and not together with Idle unless both played before the frame |
| FollowClick.Frames | example.03.js:260-264 | repeated frames keep every array at the same length |
| FollowClick.FramesNeverLengthenPaths | example.03.js:228-240 | without a click, over n frames no path grows and none shrinks by more than n |
| FollowClick.FollowClickDemo.constructor | example.03.js:139-148 | one agent per blueprint at its spawn position with its speed, no path, no clip playing |
| FollowClick.FollowClickDemo.OnClick | example.03.js:183-203 | every agent asks for a path to the same clicked point in index order; a truthy answer replaces its path, `null` keeps it; the first fault ends the handler and every agent from there on keeps its path |
| FollowClick.FollowClickDemo.MoveAgent | example.03.js:210-240 | one loop body changes only agent `i`'s entries, to exactly `AgentStep` of its old entries |
| FollowClick.FollowClickDemo.MoveAgents | example.03.js:208-242 | the loop yields exactly `Frame` of the old state |
| Steering.FindPathTo | example.02.js:225-232 | the answer is the nav mesh's path when there is one, and `null` when there is none or the query throws |
| Steering.RenderClamp | example.02.js:171-173 | y and z are never changed; x ends in [-18, 18]; x above 18 becomes 18, below -18 becomes -18; when y < 0.4, x becomes 0.4; otherwise the point is unchanged |
| Steering.RenderClampIdempotent | example.02.js:171-173 | clamping twice equals clamping once |
| Steering.Followers | example.02.js:202-216 | `paths` after visiting k entities has at most k entries, each a vehicle below k that obtained a non-empty path |
| Steering.FollowersExact | example.02.js:202-216 | `paths` lists exactly the vehicles that obtained a non-empty path, in increasing order, and its q-th entry is vehicle q or a later one |
| Steering.FollowersDrift | example.02.js:203-216 | once some vehicle failed, a later vehicle that follows is stored in `paths` below its own index, and `paths` at its own index (read by its render callback, line 169) belongs to another vehicle |
| Steering.SteeringDemo.constructor | example.02.js:125-160 | one vehicle and mesh per blueprint at its spawn position, empty inactive follow path, entity count = obstacles + vehicles, `paths` empty |
| Steering.SteeringDemo.OnClick | example.02.js:202-220 | positions are unchanged; `paths` is reset and becomes exactly `Followers` over all entities; a following vehicle's follow path afterwards holds exactly the returned points in order and is active; any other vehicle's follow path and flag are untouched |
| Steering.SteeringDemo.Follow | example.02.js:210-215 | the vehicle's follow path is cleared and then holds exactly the given points in order, its behaviour is active, and nothing else changes |
| Steering.SteeringDemo.SyncMeshWithVehicle | example.02.js:164-178 | the mesh takes the unclamped position, the vehicle's position becomes `RenderClamp` of it, and the mesh is turned along the follow path `paths[i]` names, if any |

## Left out

- Rendering, scene and texture setup, asset loading, resize handling, helper drawing (`drawPathHelper`, the pathfinding helpers) and main.js. These are user interface; nothing in them decides where an agent goes.
- Raycasting a click into a point. The click handlers are modelled from the point where a hit was found. In example.04.js a hit only calls `triggerMove` and ignores the clicked point, so `TriggerMove` covers that handler.
- The path-finding libraries (three-pathfinding's `getGroup`, `getClosestNode` and `findPath`; YUKA's `NavMesh.findPath` and `getClosestRegion`). They are foreign code, modelled only as the `Oracle` and `GroundQuery` parameters. The oracle is a fixed function of position and target, as the nav mesh is static.
- `normalize`, `multiplyScalar`, `lookAt` and the mesh's orientation. These need square roots and trigonometry. The move is the opaque `Stepper` parameter, so nothing is proved about step length or overshoot. `lookAt` is modelled only as the answer to which follow path a mesh faces in example.02.js.
- Floating point. Coordinates, 0.5 * 0.005, 0.1 and 0.02 are exact reals, so no rounding is modelled.
- The AnimationMixer. A clip is modelled only by whether it is running: `play()` sets it and `stop()` clears it. `mixers[i].update` is not modelled.
- YUKA steering: `Vehicle` motion, `FollowPathBehavior` following (its waypoint cursor included), `entityManager.update` and the obstacle entities beyond their count. This is library behaviour that is not visible here.
- The asynchronous loading. The model assumes that `yukaNav`, the nav mesh and every agent's Idle and Run actions exist, so the `TypeError`s that would be thrown before then are not modelled. The frame clock is the `dt` input.
- example.02.js lines 217-218 (`path.current && …`). `findPathTo` returns an array, which has no `current` method, so these lines do nothing and are not modelled.
- Where a step lands. Nothing is proved about it, because `Stepper` is opaque: the model does not say that an agent ends on the segment toward its waypoint.
- Patrol.FrameKeepsCursorInRange: assumes the library gives no path toward `undefined` (`NoRouteToUndefined`). What three-pathfinding does with an `undefined` target is not visible here. Without the assumption, an agent given such a path could push its cursor past the tour's length, and the reset test would then never fire again.
