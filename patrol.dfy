/** The patrol controller of example.04.js. Every frame each agent either
    walks toward the front waypoint of its path, adjusting its height
    toward the nav mesh, or drops that waypoint. An agent whose path has
    run out while its Run clip plays asks, through `triggerMove`, for new
    paths toward the tour point its cursor selects, for every agent. */
module Patrol {
  import opened Nav

  /** The tour, `waypoints`. */
  const Waypoints: seq<Point> := [
    Point(2.0, 5.0, -45.0),
    Point(-11.5, 0.5, 5.5),
    Point(-18.5, 0.5, 14.0),
    Point(-17.5, 5.0, -76.0),
    Point(-12.5, 5.0, -76.0)
  ]

  /** One entry of `npcBlueprints`: speed and spawn position. Colour,
      weapon and spawn time are cosmetic. */
  datatype Blueprint = Blueprint(speed: real, pos: Point)

  const Blueprints: seq<Blueprint> := [
    Blueprint(16.0, Point(16.0, 5.2, -62.0)),
    Blueprint(16.0, Point(12.0, 5.2, -79.0)),
    Blueprint(16.0, Point(-10.0, 5.2, -78.0)),
    Blueprint(16.0, Point(-17.0, 5.2, -49.0))
  ]

  /** `waypoints[k]`, which is `undefined` past the end of the tour. */
  function WaypointAt(k: nat): Option<Point>
  {
    if k < |Waypoints| then Some(Waypoints[k]) else None
  }

  /** The ground clamp applied after a move: when a region is found
      and its centroid height differs from `y` by more than 0.1, `y`
      moves 0.02 toward it; otherwise `y` stays. */
  function GroundClamp(y: real, region: Option<real>): (r: real)
    ensures region.None? ==> r == y
    ensures region.Some? && Abs(region.value - y) <= 0.1 ==> r == y
    ensures region.Some? && Abs(region.value - y) > 0.1 ==>
      && Abs(r - y) == 0.02
      && (region.value > y <==> r > y)
      && Abs(region.value - r) < Abs(region.value - y)
      && (region.value > y <==> region.value > r)
  {
    match region
    case None => y
    case Some(centroidY) =>
      if Abs(centroidY - y) > 0.1 then
        if y < centroidY then y + 0.02 else y - 0.02
      else y
  }

  /** The per-agent parallel arrays, as one value: the meshes'
      positions, `paths`, whether the Idle and the Run clip are running,
      and each mesh's `userData["wp_index"]`. */
  datatype Snapshot = Snapshot(
    positions: seq<Point>,
    paths: seq<Option<Path>>,
    idle: seq<bool>,
    run: seq<bool>,
    cursor: seq<nat>)
  {
    function Count(): nat
    {
      |positions|
    }

    predicate WellFormed()
    {
      |paths| == Count() && |idle| == Count() && |run| == Count() && |cursor| == Count()
    }
  }

  /** What a frame reads besides the agents: the path query, the region
      lookup, the move step, the blueprints' speeds and the frame time. */
  datatype Env = Env(nav: Oracle, ground: GroundQuery, step: Stepper, speeds: seq<real>, dt: real)

  /** The query `triggerMove` makes for agent `j`: from its position
      toward the tour point its cursor selects. */
  function Request(s: Snapshot, nav: Oracle, j: nat): PathResult
    requires s.WellFormed() && j < s.Count()
  {
    nav(s.positions[j], WaypointAt(s.cursor[j]))
  }

  /** `triggerMove`: every agent's request, each in its own try/catch. */
  function TriggerAll(s: Snapshot, nav: Oracle): (t: Snapshot)
    requires s.WellFormed()
    ensures t.WellFormed() && t.Count() == s.Count()
    ensures t.positions == s.positions && t.idle == s.idle && t.run == s.run && t.cursor == s.cursor
    ensures forall j :: 0 <= j < s.Count() ==>
      if Request(s, nav, j).Found? then t.paths[j] == Some(Request(s, nav, j).points)
      else t.paths[j] == s.paths[j]
  {
    s.(paths := seq(s.Count(), j requires 0 <= j < s.Count() => Replaced(s.paths[j], Request(s, nav, j))))
  }

  /** One iteration of the `moveAgents` loop, for agent `i`. */
  function AgentFrame(s: Snapshot, i: nat, env: Env): (t: Snapshot)
    requires s.WellFormed() && i < s.Count() && |env.speeds| == s.Count()
    ensures t.WellFormed() && t.Count() == s.Count()
  {
    if PathLength(s.paths[i]) == 0 then
      if s.run[i] then
        var reset := if s.cursor[i] == |Waypoints| then s.(cursor := s.cursor[i := 0]) else s;
        TriggerAll(reset, env.nav)
      else
        s
    else
      var running := if !s.run[i] then s.(idle := s.idle[i := false], run := s.run[i := true]) else s;
      var path := s.paths[i].value;
      if StillFar(s.positions[i], path[0]) then
        var p := env.step(s.positions[i], path[0], env.dt, env.speeds[i]);
        running.(positions := s.positions[i := p.(y := GroundClamp(p.y, env.ground(p)))])
      else
        var rest := path[1..];
        running.(
          paths := s.paths[i := Some(rest)],
          cursor := if |rest| == 1 then s.cursor[i := s.cursor[i] + 1] else s.cursor)
  }

  /** The first `k` iterations of `moveAgents`, in agent order. */
  function MoveUpTo(s: Snapshot, k: nat, env: Env): (t: Snapshot)
    requires s.WellFormed() && k <= s.Count() && |env.speeds| == s.Count()
    ensures t.WellFormed() && t.Count() == s.Count()
    decreases k
  {
    if k == 0 then s else AgentFrame(MoveUpTo(s, k - 1, env), k - 1, env)
  }

  /** One whole call of `moveAgents`. */
  function Frame(s: Snapshot, env: Env): (t: Snapshot)
    requires s.WellFormed() && |env.speeds| == s.Count()
    ensures t.WellFormed() && t.Count() == s.Count()
  {
    MoveUpTo(s, s.Count(), env)
  }

  // ---------------------------------------------------------------------
  // One iteration

  /** An agent without a path does not move, and no clip changes. With
      Run stopped nothing at all happens; with Run playing the cursor is
      reset to 0 when it equals the tour's length, and then every agent
      requests a path, agent `i` with the cursor already reset. */
  lemma EmptyPathIteration(s: Snapshot, i: nat, env: Env)
    requires s.WellFormed() && i < s.Count() && |env.speeds| == s.Count()
    requires PathLength(s.paths[i]) == 0
    ensures var t := AgentFrame(s, i, env);
      && t.positions == s.positions && t.idle == s.idle && t.run == s.run
      && (!s.run[i] ==> t == s)
      && (s.run[i] ==>
            && t.cursor[i] == (if s.cursor[i] == |Waypoints| then 0 else s.cursor[i])
            && (forall j :: 0 <= j < s.Count() && j != i ==> t.cursor[j] == s.cursor[j])
            && (forall j :: 0 <= j < s.Count() ==>
                  t.paths[j] == Replaced(s.paths[j], env.nav(s.positions[j], WaypointAt(t.cursor[j])))))
  {
  }

  /** Given a path while Run is stopped, the agent stops Idle and starts
      Run; with Run already playing the clips are untouched. */
  lemma StartRunIteration(s: Snapshot, i: nat, env: Env)
    requires s.WellFormed() && i < s.Count() && |env.speeds| == s.Count()
    requires PathLength(s.paths[i]) > 0
    ensures var t := AgentFrame(s, i, env);
      && t.run[i] && (!s.run[i] ==> !t.idle[i]) && (s.run[i] ==> t.idle[i] == s.idle[i])
      && (forall j :: 0 <= j < s.Count() && j != i ==> t.idle[j] == s.idle[j] && t.run[j] == s.run[j])
  {
  }

  /** Given a path, an agent either moves (and its path stays) or drops
      exactly the front waypoint (and stays where it is, height
      included); which one is decided by the squared distance to that
      waypoint. No other agent's position or path changes. */
  lemma MoveOrDropIteration(s: Snapshot, i: nat, env: Env)
    requires s.WellFormed() && i < s.Count() && |env.speeds| == s.Count()
    requires PathLength(s.paths[i]) > 0
    ensures var t := AgentFrame(s, i, env);
      var path := s.paths[i].value;
      && (forall j :: 0 <= j < s.Count() && j != i ==> t.positions[j] == s.positions[j] && t.paths[j] == s.paths[j])
      && (StillFar(s.positions[i], path[0]) ==>
            var p := env.step(s.positions[i], path[0], env.dt, env.speeds[i]);
            && t.paths[i] == s.paths[i]
            && t.positions[i] == Point(p.x, GroundClamp(p.y, env.ground(p)), p.z))
      && (!StillFar(s.positions[i], path[0]) ==>
            && t.positions == s.positions
            && t.paths[i] == Some(path[1..]))
  {
  }

  /** The cursor grows by exactly one exactly when a drop leaves exactly
      one waypoint; no other cursor changes when the agent has a path. */
  lemma CursorIteration(s: Snapshot, i: nat, env: Env)
    requires s.WellFormed() && i < s.Count() && |env.speeds| == s.Count()
    requires PathLength(s.paths[i]) > 0
    ensures var t := AgentFrame(s, i, env);
      && (t.cursor[i] == s.cursor[i] + 1 <==>
            !StillFar(s.positions[i], s.paths[i].value[0]) && PathLength(t.paths[i]) == 1)
      && (t.cursor[i] == s.cursor[i] || t.cursor[i] == s.cursor[i] + 1)
      && (forall j :: 0 <= j < s.Count() && j != i ==> t.cursor[j] == s.cursor[j])
  {
  }

  // ---------------------------------------------------------------------
  // Whole frames

  /** Neither clip runs together with the other. */
  predicate ClipsExclusive(s: Snapshot)
    requires s.WellFormed()
  {
    forall j :: 0 <= j < s.Count() ==> !(s.idle[j] && s.run[j])
  }

  lemma ClipsIteration(s: Snapshot, i: nat, env: Env)
    requires s.WellFormed() && i < s.Count() && |env.speeds| == s.Count()
    ensures var t := AgentFrame(s, i, env);
      && (forall j :: 0 <= j < s.Count() && s.run[j] ==> t.run[j])
      && (forall j :: 0 <= j < s.Count() && !s.idle[j] ==> !t.idle[j])
      && (ClipsExclusive(s) ==> ClipsExclusive(t))
  {
  }

  lemma {:induction false} ClipsUpTo(s: Snapshot, k: nat, env: Env)
    requires s.WellFormed() && k <= s.Count() && |env.speeds| == s.Count()
    ensures var t := MoveUpTo(s, k, env);
      && (forall j :: 0 <= j < s.Count() && s.run[j] ==> t.run[j])
      && (forall j :: 0 <= j < s.Count() && !s.idle[j] ==> !t.idle[j])
      && (ClipsExclusive(s) ==> ClipsExclusive(t))
    decreases k
  {
    if k > 0 {
      var mid := MoveUpTo(s, k - 1, env);
      ClipsUpTo(s, k - 1, env);
      ClipsIteration(mid, k - 1, env);
      assert MoveUpTo(s, k, env) == AgentFrame(mid, k - 1, env);
    }
  }

  /** Nothing in this variant stops Run once it plays (the stop is
      commented out), and nothing plays Idle: an Idle clip that is
      stopped stays stopped, so from the start state, where no clip
      plays, Idle never plays at all, let alone together with Run. */
  lemma FrameKeepsRun(s: Snapshot, env: Env)
    requires s.WellFormed() && |env.speeds| == s.Count()
    ensures var t := Frame(s, env);
      && (forall j :: 0 <= j < s.Count() && s.run[j] ==> t.run[j])
      && (forall j :: 0 <= j < s.Count() && !s.idle[j] ==> !t.idle[j])
      && (ClipsExclusive(s) ==> ClipsExclusive(t))
  {
    ClipsUpTo(s, s.Count(), env);
  }

  /** The cursor never passes the tour's length, and it only equals
      that length while at most one waypoint is left. */
  predicate CursorInRange(s: Snapshot)
    requires s.WellFormed()
  {
    forall j :: 0 <= j < s.Count() ==>
      s.cursor[j] <= |Waypoints| && (s.cursor[j] == |Waypoints| ==> PathLength(s.paths[j]) <= 1)
  }

  /** The library gives no path toward an `undefined` target. */
  ghost predicate NoRouteToUndefined(nav: Oracle)
  {
    forall p: Point :: !nav(p, None).Found?
  }

  lemma TriggerKeepsCursorInRange(s: Snapshot, nav: Oracle)
    requires s.WellFormed() && CursorInRange(s) && NoRouteToUndefined(nav)
    ensures CursorInRange(TriggerAll(s, nav))
  {
    var t := TriggerAll(s, nav);
    forall j | 0 <= j < s.Count()
      ensures t.cursor[j] <= |Waypoints| && (t.cursor[j] == |Waypoints| ==> PathLength(t.paths[j]) <= 1)
    {
      if s.cursor[j] == |Waypoints| {
        assert !nav(s.positions[j], None).Found?;
      }
    }
  }

  lemma CursorIterationInRange(s: Snapshot, i: nat, env: Env)
    requires s.WellFormed() && i < s.Count() && |env.speeds| == s.Count()
    requires CursorInRange(s) && NoRouteToUndefined(env.nav)
    ensures CursorInRange(AgentFrame(s, i, env))
  {
    if PathLength(s.paths[i]) == 0 && s.run[i] {
      var reset := if s.cursor[i] == |Waypoints| then s.(cursor := s.cursor[i := 0]) else s;
      assert CursorInRange(reset);
      TriggerKeepsCursorInRange(reset, env.nav);
    }
  }

  lemma {:induction false} CursorUpToInRange(s: Snapshot, k: nat, env: Env)
    requires s.WellFormed() && k <= s.Count() && |env.speeds| == s.Count()
    requires CursorInRange(s) && NoRouteToUndefined(env.nav)
    ensures CursorInRange(MoveUpTo(s, k, env))
    decreases k
  {
    if k > 0 {
      CursorUpToInRange(s, k - 1, env);
      CursorIterationInRange(MoveUpTo(s, k - 1, env), k - 1, env);
    }
  }

  /** Provided the library answers no query toward `undefined`, every
      frame keeps each cursor within 0 .. |waypoints| (both ends
      included), so the reset test `wp_index === waypoints.length` is
      the only way back to the start of the tour. */
  lemma FrameKeepsCursorInRange(s: Snapshot, env: Env)
    requires s.WellFormed() && |env.speeds| == s.Count()
    requires CursorInRange(s) && NoRouteToUndefined(env.nav)
    ensures CursorInRange(Frame(s, env))
  {
    CursorUpToInRange(s, s.Count(), env);
  }

  // ---------------------------------------------------------------------
  // The demo's module-level state

  /** The parallel arrays of example.04.js: the agent meshes' positions
      and `wp_index` tags, `paths`, and the running flags of each agent's
      Idle and Run animation actions; `speeds` holds the blueprints'
      speeds. */
  class PatrolDemo {
    var positions: seq<Point>
    var paths: seq<Option<Path>>
    var idle: seq<bool>
    var run: seq<bool>
    var cursor: seq<nat>
    const speeds: seq<real>

    ghost predicate Valid()
      reads this
    {
      State().WellFormed() && |speeds| == |positions|
    }

    function State(): Snapshot
      reads this
    {
      Snapshot(positions, paths, idle, run, cursor)
    }

    /** `drawAgents` and `setupMixerAndActions`: one agent per blueprint
        at its spawn position, no path, no clip playing, cursor 0. */
    constructor ()
      ensures Valid() && |positions| == |Blueprints|
      ensures forall j :: 0 <= j < |Blueprints| ==>
        && positions[j] == Blueprints[j].pos && speeds[j] == Blueprints[j].speed
        && paths[j] == None && !idle[j] && !run[j] && cursor[j] == 0
      ensures ClipsExclusive(State()) && CursorInRange(State())
    {
      var n := |Blueprints|;
      positions := seq(n, j requires 0 <= j < n => Blueprints[j].pos);
      speeds := seq(n, j requires 0 <= j < n => Blueprints[j].speed);
      paths := seq(n, j => None);
      idle := seq(n, j => false);
      run := seq(n, j => false);
      cursor := seq(n, j => 0);
    }

    /** `triggerMove`: for every agent in turn, request a path toward
        `waypoints[wp_index]`; a truthy answer replaces `paths[i]`, while
        `null` or a thrown error (caught) keeps it and the loop goes on. */
    method TriggerMove(nav: Oracle)
      requires Valid()
      modifies this
      ensures Valid()
      ensures State() == TriggerAll(old(State()), nav)
    {
      var i := 0;
      while i < |positions|
        invariant 0 <= i <= |positions| == |old(positions)|
        invariant Valid()
        invariant positions == old(positions) && idle == old(idle) && run == old(run) && cursor == old(cursor)
        invariant forall j :: 0 <= j < |positions| ==>
          paths[j] == if j < i then Replaced(old(paths[j]), Request(old(State()), nav, j)) else old(paths[j])
      {
        var answer := nav(positions[i], WaypointAt(cursor[i]));
        match answer {
          case Found(points) => paths := paths[i := Some(points)];
          case NoPath =>
          case Fault =>  // caught and ignored
        }
        i := i + 1;
      }
    }

    /** The body of the `moveAgents` loop for agent `i`. */
    method MoveAgent(i: nat, env: Env)
      requires Valid() && i < |positions| && env.speeds == speeds
      modifies this
      ensures Valid()
      ensures State() == AgentFrame(old(State()), i, env)
    {
      if PathLength(paths[i]) == 0 {
        if run[i] {
          if cursor[i] == |Waypoints| {
            cursor := cursor[i := 0];
          }
          TriggerMove(env.nav);
        }
        return;
      }
      if !run[i] {
        idle := idle[i := false];
        run := run[i := true];
      }
      var target := paths[i].value[0];
      if StillFar(positions[i], target) {
        var p := env.step(positions[i], target, env.dt, speeds[i]);
        positions := positions[i := p.(y := GroundClamp(p.y, env.ground(p)))];
      } else {
        var rest := paths[i].value[1..];
        paths := paths[i := Some(rest)];
        if |rest| == 1 {
          cursor := cursor[i := cursor[i] + 1];
        }
      }
    }

    /** `moveAgents(deltaTime)`: every agent in index order. */
    method MoveAgents(dt: real, nav: Oracle, ground: GroundQuery, step: Stepper)
      requires Valid()
      modifies this
      ensures Valid()
      ensures State() == Frame(old(State()), Env(nav, ground, step, speeds, dt))
    {
      var env := Env(nav, ground, step, speeds, dt);
      var i := 0;
      while i < |positions|
        invariant Valid() && |positions| == |old(positions)|
        invariant 0 <= i <= |positions|
        invariant State() == MoveUpTo(old(State()), i, env)
      {
        MoveAgent(i, env);
        i := i + 1;
      }
    }
  }
}
