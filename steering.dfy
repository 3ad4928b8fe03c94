/** The steering demo of example.02.js. A click hands every vehicle that
    obtains a non-empty path a fresh follow path and activates its
    follow-path behaviour, collecting those follow paths in `paths`; each
    vehicle's render callback copies the vehicle's position to its mesh,
    then clamps the vehicle's position to fixed map extents. */
module Steering {
  import opened Nav

  /** One entry of `agentBlueprints`: speed and spawn position. */
  datatype Blueprint = Blueprint(speed: real, pos: Point)

  const Blueprints: seq<Blueprint> := [
    Blueprint(14.0, Point(19.0, 1.5, 18.5))
  ]

  /** `findPathTo`: the nav mesh's answer, or `null` when it throws. */
  function FindPathTo(from: Point, to: Point, nav: Oracle): (r: Option<Path>)
    ensures nav(from, Some(to)).Found? <==> r.Some?
    ensures r.Some? ==> r.value == nav(from, Some(to)).points
  {
    match nav(from, Some(to))
    case Found(points) => Some(points)
    case NoPath => None
    case Fault => None  // caught: null
  }

  /** The clamp of the render callback, verbatim: x is brought into
      [-18, 18], first from above, then from below; and when y is below
      0.4 it is x, not y, that is set to 0.4. */
  function RenderClamp(p: Point): (r: Point)
    ensures r.y == p.y && r.z == p.z
    ensures -18.0 <= r.x <= 18.0
    ensures p.y < 0.4 ==> r.x == 0.4
    ensures p.y >= 0.4 && p.x > 18.0 ==> r.x == 18.0
    ensures p.y >= 0.4 && p.x < -18.0 ==> r.x == -18.0
    ensures p.y >= 0.4 && -18.0 <= p.x <= 18.0 ==> r == p
  {
    var x := p.x;
    var x := if x > 18.0 then 18.0 else x;
    var x := if x < -18.0 then -18.0 else x;
    var x := if p.y < 0.4 then 0.4 else x;
    Point(x, p.y, p.z)
  }

  /** Clamping a clamped position changes nothing. */
  lemma RenderClampIdempotent(p: Point)
    ensures RenderClamp(RenderClamp(p)) == RenderClamp(p)
  {
  }

  /** Vehicle `i` exists and its query gave a non-empty path, so its
      follow path is replaced in the click handler. */
  predicate Follows(positions: seq<Point>, i: nat, target: Point, nav: Oracle)
  {
    && i < |positions|
    && var r := FindPathTo(positions[i], target, nav);
    && r.Some? && |r.value| > 0
  }

  /** What `paths` holds after the click handler has visited the first
      `k` entities: the vehicle indices whose follow path was pushed, in
      the order they were pushed. */
  function Followers(positions: seq<Point>, target: Point, nav: Oracle, k: nat): (r: seq<nat>)
    ensures |r| <= k
    ensures forall q :: 0 <= q < |r| ==> r[q] < k && Follows(positions, r[q], target, nav)
    decreases k
  {
    if k == 0 then []
    else Followers(positions, target, nav, k - 1) + (if Follows(positions, k - 1, target, nav) then [k - 1] else [])
  }

  /** `paths` lists exactly the vehicles that followed, in increasing
      index order, and its q-th entry belongs to a vehicle numbered q or
      more. */
  lemma {:induction false} FollowersExact(positions: seq<Point>, target: Point, nav: Oracle, k: nat)
    ensures var r := Followers(positions, target, nav, k);
      && (forall m: nat :: m in r <==> m < k && Follows(positions, m, target, nav))
      && (forall p, q :: 0 <= p < q < |r| ==> r[p] < r[q])
      && (forall q :: 0 <= q < |r| ==> q <= r[q])
    decreases k
  {
    if k > 0 {
      FollowersExact(positions, target, nav, k - 1);
      var before := Followers(positions, target, nav, k - 1);
      if Follows(positions, k - 1, target, nav) {
        assert Followers(positions, target, nav, k) == before + [k - 1];
      } else {
        assert Followers(positions, target, nav, k) == before;
      }
    }
  }

  /** Visiting more entities only appends to `paths`. */
  lemma {:induction false} FollowersPrefix(positions: seq<Point>, target: Point, nav: Oracle, j: nat, k: nat)
    requires j <= k
    ensures Followers(positions, target, nav, j) <= Followers(positions, target, nav, k)
    decreases k - j
  {
    if j < k {
      FollowersPrefix(positions, target, nav, j, k - 1);
    }
  }

  /** A vehicle that did not follow leaves `paths` shorter than the
      number of entities visited. */
  lemma {:induction false} FollowersShort(positions: seq<Point>, target: Point, nav: Oracle, k: nat, f: nat)
    requires f < k && !Follows(positions, f, target, nav)
    ensures |Followers(positions, target, nav, k)| < k
    decreases k
  {
    if f < k - 1 {
      FollowersShort(positions, target, nav, k - 1, f);
    }
  }

  /** Once any vehicle `f` has failed, a later vehicle `s` that follows
      is stored in `paths` at an index below `s`, and the entry at index
      `s`, if there is one, belongs to another vehicle: the render
      callback of vehicle `i` reads `paths[i]`, so it looks along another
      vehicle's follow path. */
  lemma FollowersDrift(positions: seq<Point>, target: Point, nav: Oracle, k: nat, f: nat, s: nat)
    requires f < s < k
    requires !Follows(positions, f, target, nav) && Follows(positions, s, target, nav)
    ensures var r := Followers(positions, target, nav, k);
      && (exists q :: 0 <= q < s && q < |r| && r[q] == s)
      && (s < |r| ==> r[s] != s)
  {
    var r := Followers(positions, target, nav, k);
    var before := Followers(positions, target, nav, s);
    FollowersShort(positions, target, nav, s, f);
    assert Followers(positions, target, nav, s + 1) == before + [s];
    FollowersPrefix(positions, target, nav, s + 1, k);
    var q := |before|;
    assert r[q] == s;
    FollowersExact(positions, target, nav, k);
    if s < |r| {
      assert r[q] < r[s];
    }
  }

  /** The demo's vehicles, their meshes and `paths`. `paths[q]` is the
      index of the vehicle whose follow path object was pushed q-th. */
  class SteeringDemo {
    var vehiclePositions: seq<Point>
    var meshPositions: seq<Point>
    var followPaths: seq<Path>
    var active: seq<bool>
    var paths: seq<nat>
    const speeds: seq<real>
    /** The entity manager's count: the obstacles, added first, and the
        vehicles. */
    const entityCount: nat

    ghost predicate Valid()
      reads this
    {
      && |meshPositions| == |vehiclePositions|
      && |followPaths| == |vehiclePositions|
      && |active| == |vehiclePositions|
      && |speeds| == |vehiclePositions|
      && entityCount >= |vehiclePositions|
      && forall q :: 0 <= q < |paths| ==> paths[q] < |vehiclePositions|
    }

    /** `drawMapAndNavMesh` registers `obstacleCount` obstacles, then
        `drawAgents` one vehicle per blueprint with an inactive
        follow-path behaviour and an empty follow path. */
    constructor (obstacleCount: nat)
      ensures Valid() && |vehiclePositions| == |Blueprints|
      ensures entityCount == obstacleCount + |Blueprints|
      ensures forall j :: 0 <= j < |Blueprints| ==>
        && vehiclePositions[j] == Blueprints[j].pos && meshPositions[j] == Blueprints[j].pos
        && speeds[j] == Blueprints[j].speed && followPaths[j] == [] && !active[j]
      ensures paths == []
    {
      var n := |Blueprints|;
      vehiclePositions := seq(n, j requires 0 <= j < n => Blueprints[j].pos);
      meshPositions := seq(n, j requires 0 <= j < n => Blueprints[j].pos);
      speeds := seq(n, j requires 0 <= j < n => Blueprints[j].speed);
      followPaths := seq(n, j => []);
      active := seq(n, j => false);
      paths := [];
      entityCount := obstacleCount + n;
    }

    /** The click handler once the ray has hit: `paths` is emptied, then
        for every entity index `i` the vehicle `agentVehicles[i]`, if
        there is one, asks for a path to the clicked point; a non-empty
        answer clears its follow path, activates the behaviour, adds the
        points one by one and pushes the follow path onto `paths`. */
    method OnClick(target: Point, nav: Oracle)
      requires Valid()
      modifies this
      ensures Valid()
      ensures vehiclePositions == old(vehiclePositions) && meshPositions == old(meshPositions)
      ensures paths == Followers(vehiclePositions, target, nav, entityCount)
      ensures forall j :: 0 <= j < |vehiclePositions| ==>
        if Follows(vehiclePositions, j, target, nav)
        then followPaths[j] == FindPathTo(vehiclePositions[j], target, nav).value && active[j]
        else followPaths[j] == old(followPaths[j]) && active[j] == old(active[j])
    {
      paths := [];
      var i := 0;
      while i < entityCount
        invariant 0 <= i <= entityCount
        invariant Valid()
        invariant vehiclePositions == old(vehiclePositions) && meshPositions == old(meshPositions)
        invariant paths == Followers(vehiclePositions, target, nav, i)
        invariant forall j :: 0 <= j < |vehiclePositions| ==>
          if j < i && Follows(vehiclePositions, j, target, nav)
          then followPaths[j] == FindPathTo(vehiclePositions[j], target, nav).value && active[j]
          else followPaths[j] == old(followPaths[j]) && active[j] == old(active[j])
      {
        if i < |vehiclePositions| {
          var path := FindPathTo(vehiclePositions[i], target, nav);
          if path.Some? && |path.value| > 0 {
            Follow(i, path.value);
            paths := paths + [i];
          }
        }
        i := i + 1;
      }
    }

    /** The follow-path update of one vehicle: its follow path is
        cleared, its behaviour activated, and the points added one by
        one, in order. */
    method Follow(i: nat, points: Path)
      requires Valid() && i < |vehiclePositions|
      modifies this
      ensures Valid()
      ensures followPaths == old(followPaths)[i := points] && active == old(active)[i := true]
      ensures vehiclePositions == old(vehiclePositions) && meshPositions == old(meshPositions)
      ensures paths == old(paths)
    {
      followPaths := followPaths[i := []];
      active := active[i := true];
      var k := 0;
      while k < |points|
        invariant 0 <= k <= |points|
        invariant Valid()
        invariant followPaths == old(followPaths)[i := points[..k]] && active == old(active)[i := true]
        invariant vehiclePositions == old(vehiclePositions) && meshPositions == old(meshPositions)
        invariant paths == old(paths)
      {
        assert points[..k + 1] == points[..k] + [points[k]];
        followPaths := followPaths[i := followPaths[i] + [points[k]]];
        k := k + 1;
      }
      assert points[..k] == points;
    }

    /** The render callback of vehicle `i`: the mesh takes the vehicle's
        position, then the vehicle's position is clamped. The answer is
        the vehicle whose follow path the mesh is turned along, the one
        `paths[i]` holds, or `None` when `paths[i]` is undefined. */
    method SyncMeshWithVehicle(i: nat) returns (facing: Option<nat>)
      requires Valid() && i < |vehiclePositions|
      modifies this
      ensures Valid()
      ensures meshPositions == old(meshPositions)[i := old(vehiclePositions)[i]]
      ensures vehiclePositions == old(vehiclePositions)[i := RenderClamp(old(vehiclePositions)[i])]
      ensures followPaths == old(followPaths) && active == old(active) && paths == old(paths)
      ensures facing == if i < |paths| then Some(paths[i]) else None
    {
      meshPositions := meshPositions[i := vehiclePositions[i]];
      vehiclePositions := vehiclePositions[i := RenderClamp(vehiclePositions[i])];
      facing := if i < |paths| then Some(paths[i]) else None;
    }
  }
}
