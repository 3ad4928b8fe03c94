/** The click-to-move controller of example.03.js. A click asks the
    path-finding library, for every agent, for a path to the clicked
    point; every frame each agent with a path either walks toward its
    front waypoint or drops it, and its Idle and Run clips follow whether
    it has a path. */
module FollowClick {
  import opened Nav

  /** One entry of `npcBlueprints`: speed and spawn position. */
  datatype Blueprint = Blueprint(speed: real, pos: Point)

  const Blueprints: seq<Blueprint> := [
    Blueprint(14.0, Point(0.0, 0.2, 18.5)),
    Blueprint(16.0, Point(-18.0, 0.2, -18.0))
  ]

  /** One agent's share of the parallel arrays: mesh position,
      `paths[i]`, and whether its Idle and Run clips are running. */
  datatype Agent = Agent(pos: Point, path: Option<Path>, idle: bool, run: bool)

  /** The body of the `moveAgents` loop for one agent. Afterwards Run
      plays exactly when the agent had a path, and never together with
      Idle unless both already were; the path is kept or loses exactly its
      front waypoint; and an agent that changes position had a path and
      kept it. */
  function AgentStep(a: Agent, speed: real, dt: real, step: Stepper): (b: Agent)
    ensures b.run <==> PathLength(a.path) > 0
    ensures !(a.idle && a.run) ==> !(b.idle && b.run)
    ensures b.path == a.path || (PathLength(a.path) > 0 && b.path == Some(a.path.value[1..]))
    ensures PathLength(b.path) <= PathLength(a.path)
    ensures b.pos != a.pos ==> PathLength(a.path) > 0 && b.path == a.path
  {
    if PathLength(a.path) == 0 then
      if a.run then a.(run := false, idle := true) else a
    else
      var running := if !a.run then a.(idle := false, run := true) else a;
      var target := a.path.value[0];
      if StillFar(a.pos, target) then running.(pos := step(a.pos, target, dt, speed))
      else running.(path := Some(a.path.value[1..]))
  }

  /** Without a path, a running agent stops Run and plays Idle, one that
      is not running is left alone; neither moves nor changes path. */
  lemma NoPathStep(a: Agent, speed: real, dt: real, step: Stepper)
    requires PathLength(a.path) == 0
    ensures var b := AgentStep(a, speed, dt, step);
      && b.pos == a.pos && b.path == a.path
      && (a.run ==> !b.run && b.idle)
      && (!a.run ==> b == a)
  {
  }

  /** With a path, Run plays afterwards, and Idle is stopped when Run was
      not already playing; the agent either moves toward the front
      waypoint, keeping its path, or drops exactly that waypoint, keeping
      its position, according to the squared-distance test. */
  lemma PathStep(a: Agent, speed: real, dt: real, step: Stepper)
    requires PathLength(a.path) > 0
    ensures var b := AgentStep(a, speed, dt, step);
      && b.run && (!a.run ==> !b.idle) && (a.run ==> b.idle == a.idle)
      && (StillFar(a.pos, a.path.value[0]) ==>
            b.pos == step(a.pos, a.path.value[0], dt, speed) && b.path == a.path)
      && (!StillFar(a.pos, a.path.value[0]) ==>
            b.pos == a.pos && b.path == Some(a.path.value[1..]))
  {
  }

  /** The arrays of example.03.js, as one value. */
  datatype Snapshot = Snapshot(positions: seq<Point>, paths: seq<Option<Path>>, idle: seq<bool>, run: seq<bool>)
  {
    function Count(): nat
    {
      |positions|
    }

    predicate WellFormed()
    {
      |paths| == Count() && |idle| == Count() && |run| == Count()
    }

    function At(i: nat): Agent
      requires WellFormed() && i < Count()
    {
      Agent(positions[i], paths[i], idle[i], run[i])
    }

    /** The arrays with agent `i`'s entries replaced by `a`'s and every
        other entry as it was. */
    function With(i: nat, a: Agent): (t: Snapshot)
      requires WellFormed() && i < Count()
      ensures t.WellFormed() && t.Count() == Count()
      ensures t.At(i) == a
      ensures forall j :: 0 <= j < Count() && j != i ==> t.At(j) == At(j)
    {
      Snapshot(positions[i := a.pos], paths[i := a.path], idle[i := a.idle], run[i := a.run])
    }
  }

  /** What a frame reads besides the agents. */
  datatype Env = Env(step: Stepper, speeds: seq<real>, dt: real)

  /** The first `k` iterations of `moveAgents`, in agent order. */
  function MoveUpTo(s: Snapshot, k: nat, env: Env): (t: Snapshot)
    requires s.WellFormed() && k <= s.Count() && |env.speeds| == s.Count()
    ensures t.WellFormed() && t.Count() == s.Count()
    decreases k
  {
    if k == 0 then s
    else
      var before := MoveUpTo(s, k - 1, env);
      before.With(k - 1, AgentStep(before.At(k - 1), env.speeds[k - 1], env.dt, env.step))
  }

  /** One whole call of `moveAgents(deltaTime)`. */
  function Frame(s: Snapshot, env: Env): (t: Snapshot)
    requires s.WellFormed() && |env.speeds| == s.Count()
    ensures t.WellFormed() && t.Count() == s.Count()
  {
    MoveUpTo(s, s.Count(), env)
  }

  /** After `k` iterations the first `k` agents have taken their step
      from the state the frame started in, and the rest are untouched:
      an iteration changes its own agent's entries only. */
  lemma {:induction false} MoveUpToPointwise(s: Snapshot, k: nat, env: Env)
    requires s.WellFormed() && k <= s.Count() && |env.speeds| == s.Count()
    ensures forall j :: 0 <= j < s.Count() ==>
      MoveUpTo(s, k, env).At(j) == if j < k then AgentStep(s.At(j), env.speeds[j], env.dt, env.step) else s.At(j)
    decreases k
  {
    if k > 0 {
      MoveUpToPointwise(s, k - 1, env);
    }
  }

  /** A frame moves every agent independently of the others. */
  lemma FramePointwise(s: Snapshot, env: Env)
    requires s.WellFormed() && |env.speeds| == s.Count()
    ensures forall j :: 0 <= j < s.Count() ==>
      Frame(s, env).At(j) == AgentStep(s.At(j), env.speeds[j], env.dt, env.step)
  {
    MoveUpToPointwise(s, s.Count(), env);
  }

  /** The agent reaches its front waypoint this frame. */
  predicate Arrives(s: Snapshot, j: nat)
    requires s.WellFormed() && j < s.Count()
  {
    PathLength(s.paths[j]) > 0 && !StillFar(s.positions[j], s.paths[j].value[0])
  }

  /** In a frame an agent without a path stays put with its path; one
      that arrives drops exactly its front waypoint and stays put; any
      other agent with a path keeps it and moves. So every path loses
      exactly one waypoint on an arrival and none otherwise. Afterwards
      Run plays exactly for the agents that had a path, and never
      together with Idle. */
  lemma FrameEffect(s: Snapshot, env: Env)
    requires s.WellFormed() && |env.speeds| == s.Count()
    ensures var t := Frame(s, env);
      forall j :: 0 <= j < s.Count() ==>
        && PathLength(t.paths[j]) == (if Arrives(s, j) then PathLength(s.paths[j]) - 1 else PathLength(s.paths[j]))
        && (PathLength(s.paths[j]) == 0 ==> t.positions[j] == s.positions[j] && t.paths[j] == s.paths[j])
        && (Arrives(s, j) ==> t.positions[j] == s.positions[j] && t.paths[j] == Some(s.paths[j].value[1..]))
        && (PathLength(s.paths[j]) > 0 && !Arrives(s, j) ==>
              && t.paths[j] == s.paths[j]
              && t.positions[j] == env.step(s.positions[j], s.paths[j].value[0], env.dt, env.speeds[j]))
        && t.run[j] == (PathLength(s.paths[j]) > 0)
        && (!(s.idle[j] && s.run[j]) ==> !(t.idle[j] && t.run[j]))
  {
    FramePointwise(s, env);
    var t := Frame(s, env);
    forall j | 0 <= j < s.Count()
      ensures PathLength(t.paths[j]) == (if Arrives(s, j) then PathLength(s.paths[j]) - 1 else PathLength(s.paths[j]))
      ensures PathLength(s.paths[j]) == 0 ==> t.positions[j] == s.positions[j] && t.paths[j] == s.paths[j]
      ensures Arrives(s, j) ==> t.positions[j] == s.positions[j] && t.paths[j] == Some(s.paths[j].value[1..])
      ensures PathLength(s.paths[j]) > 0 && !Arrives(s, j) ==>
        && t.paths[j] == s.paths[j]
        && t.positions[j] == env.step(s.positions[j], s.paths[j].value[0], env.dt, env.speeds[j])
      ensures t.run[j] == (PathLength(s.paths[j]) > 0)
      ensures !(s.idle[j] && s.run[j]) ==> !(t.idle[j] && t.run[j])
    {
      assert t.At(j) == AgentStep(s.At(j), env.speeds[j], env.dt, env.step);
      if PathLength(s.paths[j]) == 0 {
        NoPathStep(s.At(j), env.speeds[j], env.dt, env.step);
      } else {
        PathStep(s.At(j), env.speeds[j], env.dt, env.step);
      }
    }
  }

  /** Frames with the given frame times and no click between them. */
  function Frames(s: Snapshot, env: Env, dts: seq<real>): (t: Snapshot)
    requires s.WellFormed() && |env.speeds| == s.Count()
    ensures t.WellFormed() && t.Count() == s.Count()
    decreases |dts|
  {
    if dts == [] then s else Frames(Frame(s, env.(dt := dts[0])), env, dts[1..])
  }

  /** Without a click, no agent's path ever grows, and it shrinks by at
      most one waypoint per frame. */
  lemma {:induction false} FramesNeverLengthenPaths(s: Snapshot, env: Env, dts: seq<real>)
    requires s.WellFormed() && |env.speeds| == s.Count()
    ensures var t := Frames(s, env, dts);
      forall j :: 0 <= j < s.Count() ==>
        PathLength(t.paths[j]) <= PathLength(s.paths[j]) <= PathLength(t.paths[j]) + |dts|
    decreases |dts|
  {
    if dts != [] {
      var next := Frame(s, env.(dt := dts[0]));
      FrameEffect(s, env.(dt := dts[0]));
      FramesNeverLengthenPaths(next, env, dts[1..]);
    }
  }

  /** The demo's module-level arrays. */
  class FollowClickDemo {
    var positions: seq<Point>
    var paths: seq<Option<Path>>
    var idle: seq<bool>
    var run: seq<bool>
    const speeds: seq<real>

    ghost predicate Valid()
      reads this
    {
      State().WellFormed() && |speeds| == |positions|
    }

    function State(): Snapshot
      reads this
    {
      Snapshot(positions, paths, idle, run)
    }

    /** `drawAgents` and `setupMixerAndActions`: one agent per blueprint
        at its spawn position, no path, no clip playing. */
    constructor ()
      ensures Valid() && |positions| == |Blueprints|
      ensures forall j :: 0 <= j < |Blueprints| ==>
        && positions[j] == Blueprints[j].pos && speeds[j] == Blueprints[j].speed
        && paths[j] == None && !idle[j] && !run[j]
    {
      var n := |Blueprints|;
      positions := seq(n, j requires 0 <= j < n => Blueprints[j].pos);
      speeds := seq(n, j requires 0 <= j < n => Blueprints[j].speed);
      paths := seq(n, j => None);
      idle := seq(n, j => false);
      run := seq(n, j => false);
    }

    /** The click handler once the ray has hit: every agent in turn asks
        for a path to the same clicked point, and a truthy answer replaces
        its path. Nothing catches a thrown query, so the first fault ends
        the handler; `handled` is the number of agents dealt with before
        it, and every later agent keeps its path. */
    method OnClick(target: Point, nav: Oracle) returns (handled: nat)
      requires Valid()
      modifies this
      ensures Valid()
      ensures positions == old(positions) && idle == old(idle) && run == old(run)
      ensures handled <= |positions|
      ensures forall j :: 0 <= j < handled ==> !nav(positions[j], Some(target)).Fault?
      ensures handled < |positions| ==> nav(positions[handled], Some(target)).Fault?
      ensures forall j :: 0 <= j < |positions| ==>
        paths[j] == if j < handled then Replaced(old(paths[j]), nav(positions[j], Some(target))) else old(paths[j])
    {
      var i := 0;
      while i < |positions|
        invariant 0 <= i <= |positions|
        invariant Valid()
        invariant positions == old(positions) && idle == old(idle) && run == old(run)
        invariant forall j :: 0 <= j < i ==> !nav(positions[j], Some(target)).Fault?
        invariant forall j :: 0 <= j < |positions| ==>
          paths[j] == if j < i then Replaced(old(paths[j]), nav(positions[j], Some(target))) else old(paths[j])
      {
        var answer := nav(positions[i], Some(target));
        match answer {
          case Found(points) => paths := paths[i := Some(points)];
          case NoPath =>
          case Fault => return i;  // uncaught: the handler stops here
        }
        i := i + 1;
      }
      handled := i;
    }

    /** One pass of the `moveAgents` loop body, for agent `i`. */
    method MoveAgent(i: nat, dt: real, step: Stepper)
      requires Valid() && i < |positions|
      modifies this
      ensures Valid()
      ensures State() == old(State()).With(i, AgentStep(old(State()).At(i), speeds[i], dt, step))
    {
      if PathLength(paths[i]) == 0 {
        if run[i] {
          run := run[i := false];
          idle := idle[i := true];
        }
        return;
      }
      if !run[i] {
        idle := idle[i := false];
        run := run[i := true];
      }
      var target := paths[i].value[0];
      if StillFar(positions[i], target) {
        positions := positions[i := step(positions[i], target, dt, speeds[i])];
      } else {
        paths := paths[i := Some(paths[i].value[1..])];
      }
    }

    /** `moveAgents(deltaTime)`: every agent in index order. */
    method MoveAgents(dt: real, step: Stepper)
      requires Valid()
      modifies this
      ensures Valid()
      ensures State() == Frame(old(State()), Env(step, speeds, dt))
    {
      var env := Env(step, speeds, dt);
      var i := 0;
      while i < |positions|
        invariant Valid() && |positions| == |old(positions)|
        invariant 0 <= i <= |positions|
        invariant State() == MoveUpTo(old(State()), i, env)
      {
        MoveAgent(i, dt, step);
        i := i + 1;
      }
    }
  }
}
