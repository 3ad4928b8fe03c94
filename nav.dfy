/** Vocabulary shared by the three demo controllers: world points, the
    answers of the path-finding library, the arrival test and the
    abstract collaborators a frame consults. */
module Nav {

  datatype Option<T> = None | Some(value: T)

  /** A three.js / YUKA `Vector3`, over exact reals. */
  datatype Point = Point(x: real, y: real, z: real)

  /** A path: the ordered waypoints one query returned. */
  type Path = seq<Point>

  function Abs(r: real): real
  {
    if r < 0.0 then -r else r
  }

  /** `a.clone().sub(b)` */
  function Sub(a: Point, b: Point): Point
  {
    Point(a.x - b.x, a.y - b.y, a.z - b.z)
  }

  /** `Vector3.lengthSq()` */
  function LengthSq(v: Point): real
  {
    v.x * v.x + v.y * v.y + v.z * v.z
  }

  /** The squared arrival radius, written as the source writes it. */
  const ArrivalEpsilon: real := 0.5 * 0.005

  /** The test both per-frame followers make before moving: the front
      waypoint is still farther than the arrival radius. */
  predicate StillFar(pos: Point, target: Point)
  {
    LengthSq(Sub(target, pos)) > ArrivalEpsilon
  }

  /** What one path query through the navigation library yields. */
  datatype PathResult =
    | Found(points: Path)  // an array; truthy even when it is empty
    | NoPath               // null
    | Fault                // the query threw

  /** The navigation library seen from the caller: from the agent's
      position toward a target, which is `None` when the caller passes
      `undefined`. Getting the agent's group and closest node is part of
      the query. */
  type Oracle = (Point, Option<Point>) -> PathResult

  /** The nav-mesh region lookup of the ground clamp: the height of the
      closest region's centroid, or `None` when no region is found. */
  type GroundQuery = Point -> Option<real>

  /** The move step `position.add(velocity.normalize().multiplyScalar(dt * speed))`,
      taking the position, the target, the frame time and the speed. */
  type Stepper = (Point, Point, real, real) -> Point

  /** Length of `paths[i]`, where an absent entry counts as empty
      (`!paths[i] || paths[i].length <= 0`). */
  function PathLength(p: Option<Path>): nat
  {
    if p.None? then 0 else |p.value|
  }

  /** `if (path) paths[i] = path`: a truthy answer replaces the path
      wholesale; `null` and a fault keep what was there. */
  function Replaced(current: Option<Path>, r: PathResult): (next: Option<Path>)
    ensures r.Found? ==> next == Some(r.points)
    ensures r.NoPath? || r.Fault? ==> next == current
  {
    match r
    case Found(points) => Some(points)
    case NoPath => current
    case Fault => current
  }
}
