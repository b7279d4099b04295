/** The search space of the path search: one floor of the map as the creature sees it,
    the search parameters, the admitted walks and their costs. */
module PathWorld {
  import opened Basics

  const MAP_NORMALWALKCOST := 10
  const MAP_DIAGONALWALKCOST := 25

  /** The most one step can cost: a diagonal step onto a tile with a blocking creature and a harmful field. */
  const MAX_STEP_COST := MAP_DIAGONALWALKCOST + MAP_NORMALWALKCOST * 3 + MAP_NORMALWALKCOST * 18

  datatype Direction =
    | North | East | South | West
    | SouthWest | SouthEast | NorthWest | NorthEast

  datatype FindPathParams = FindPathParams(
    fullPathSearch: bool, clearSight: bool, allowDiagonal: bool, keepDistance: bool,
    maxSearchDist: int, minTargetDist: int, maxTargetDist: int)

  /** What the search asks of the map: where the creature stands, the tiles canWalkTo() accepts,
      the tiles with a creature that cannot be pushed away, the tiles with a harmful field,
      the target and the tiles with a clear line of sight to it. */
  datatype World = World(
    start: Pos, target: Pos, walkable: set<Pos>,
    occupied: set<Pos>, burning: set<Pos>, inSight: set<Pos>)

  function DistanceX(p: Pos, q: Pos): int { Abs(p.x - q.x) }

  function DistanceY(p: Pos, q: Pos): int { Abs(p.y - q.y) }

  /** Coordinates are stored in 16 bits. */
  function Wrap16(v: int): int { v % 0x1_0000 }

  predicate Interior(p: Pos) { 0 < p.x < 0xFFFF && 0 < p.y < 0xFFFF }

  /** No tile the creature can use lies on the rim of the coordinate space. */
  ghost predicate Bounded(w: World) {
    Interior(w.start) && forall p :: p in w.walkable ==> Interior(p)
  }

  function Offset(d: Direction): (int, int) {
    match d
    case North => (0, -1)
    case East => (1, 0)
    case South => (0, 1)
    case West => (-1, 0)
    case SouthWest => (-1, 1)
    case SouthEast => (1, 1)
    case NorthWest => (-1, -1)
    case NorthEast => (1, -1)
  }

  function Step(p: Pos, o: (int, int)): Pos { Pos(Wrap16(p.x + o.0), Wrap16(p.y + o.1)) }

  /** Neighbours tried from a node that was reached from the given side. */
  function DirNeighbors(d: Direction): seq<(int, int)> {
    match d
    case North => [(-1, 0), (0, 1), (1, 0), (1, 1), (-1, 1)]
    case East => [(-1, 0), (0, 1), (0, -1), (-1, -1), (-1, 1)]
    case South => [(-1, 0), (1, 0), (0, -1), (-1, -1), (1, -1)]
    case West => [(0, 1), (1, 0), (0, -1), (1, -1), (1, 1)]
    case SouthWest => [(1, 0), (0, -1), (-1, -1), (1, -1), (1, 1)]
    case SouthEast => [(-1, 0), (0, -1), (-1, -1), (1, -1), (-1, 1)]
    case NorthWest => [(0, 1), (1, 0), (1, -1), (1, 1), (-1, 1)]
    case NorthEast => [(-1, 0), (0, 1), (-1, -1), (1, 1), (-1, 1)]
  }

  function AllNeighbors(): seq<(int, int)> {
    [(-1, 0), (0, 1), (1, 0), (0, -1), (-1, -1), (1, -1), (1, 1), (-1, 1)]
  }

  /** The side a node was reached from, read off the offset of its parent. */
  function ParentSide(offsetX: int, offsetY: int, allowDiagonal: bool): Direction {
    if offsetY == 0 then
      if offsetX == -1 then West else East
    else if !allowDiagonal || offsetX == 0 then
      if offsetY == -1 then North else South
    else if offsetY == -1 then
      if offsetX == -1 then NorthWest else NorthEast
    else
      if offsetX == -1 then SouthWest else SouthEast
  }

  /** The five (three without diagonals) neighbours a node with a parent tries. */
  function PrunedNeighbors(parent: Pos, p: Pos, allowDiagonal: bool): seq<(int, int)> {
    var table := DirNeighbors(ParentSide(parent.x - p.x, parent.y - p.y, allowDiagonal));
    if allowDiagonal then table else table[..3]
  }

  predicate IsInRange(w: World, fpp: FindPathParams, p: Pos) {
    if fpp.fullPathSearch then
      && p.x <= w.target.x + fpp.maxTargetDist
      && p.x >= w.target.x - fpp.maxTargetDist
      && p.y <= w.target.y + fpp.maxTargetDist
      && p.y >= w.target.y - fpp.maxTargetDist
    else
      var dx := w.start.x - w.target.x;
      var dy := w.start.y - w.target.y;
      && p.x <= w.target.x + (if dx >= 0 then fpp.maxTargetDist else 0)
      && p.x >= w.target.x - (if dx <= 0 then fpp.maxTargetDist else 0)
      && p.y <= w.target.y + (if dy >= 0 then fpp.maxTargetDist else 0)
      && p.y >= w.target.y - (if dy <= 0 then fpp.maxTargetDist else 0)
  }

  function TargetDist(w: World, p: Pos): int { Max(DistanceX(w.target, p), DistanceY(w.target, p)) }

  /** Where a match may lie at all: in range, in sight and not too near or too far. */
  predicate Candidate(w: World, fpp: FindPathParams, p: Pos) {
    && IsInRange(w, fpp, p)
    && (fpp.clearSight ==> p in w.inSight)
    && fpp.minTargetDist <= TargetDist(w, p) <= fpp.maxTargetDist
  }

  /** The goal test: whether p matches, and the best distance seen from then on. */
  function PathCondition(w: World, fpp: FindPathParams, p: Pos, bestMatch: int): (bool, int) {
    var testDist := TargetDist(w, p);
    if !IsInRange(w, fpp, p) then (false, bestMatch)
    else if fpp.clearSight && p !in w.inSight then (false, bestMatch)
    else if fpp.maxTargetDist == 1 then
      (fpp.minTargetDist <= testDist <= fpp.maxTargetDist, bestMatch)
    else if testDist <= fpp.maxTargetDist then
      if testDist < fpp.minTargetDist then (false, bestMatch)
      else if testDist == fpp.maxTargetDist then (true, 0)
      else if testDist > bestMatch then (true, testDist)
      else (false, bestMatch)
    else (false, bestMatch)
  }

  /** A match that ends the search at once. */
  predicate Perfect(w: World, fpp: FindPathParams, p: Pos) {
    Candidate(w, fpp, p) && (fpp.maxTargetDist != 1 ==> TargetDist(w, p) == fpp.maxTargetDist)
  }

  /** A match that is only the best so far. */
  predicate Partial(w: World, fpp: FindPathParams, p: Pos) {
    Candidate(w, fpp, p) && fpp.maxTargetDist != 1 && 0 < TargetDist(w, p) < fpp.maxTargetDist
  }

  /** Near enough to the start, and to the target if the distance is to be kept. */
  predicate WithinSearch(w: World, fpp: FindPathParams, p: Pos) {
    && (fpp.maxSearchDist != 0 ==>
          DistanceX(w.start, p) <= fpp.maxSearchDist && DistanceY(w.start, p) <= fpp.maxSearchDist)
    && (fpp.keepDistance ==> IsInRange(w, fpp, p))
  }

  predicate Admitted(w: World, fpp: FindPathParams, p: Pos) {
    p in w.walkable && WithinSearch(w, fpp, p)
  }

  function StepCost(p: Pos, q: Pos): int {
    if Abs(p.x - q.x) == Abs(p.y - q.y) then MAP_DIAGONALWALKCOST else MAP_NORMALWALKCOST
  }

  function TileWalkCost(w: World, p: Pos): int {
    (if p in w.occupied then MAP_NORMALWALKCOST * 3 else 0)
    + (if p in w.burning then MAP_NORMALWALKCOST * 18 else 0)
  }

  function MoveCost(w: World, p: Pos, q: Pos): (c: int)
    ensures 0 < c <= MAX_STEP_COST
  {
    StepCost(p, q) + TileWalkCost(w, q)
  }

  /** One move of a walk: to any of the eight neighbours, or, when diagonals are not allowed,
      to one of the four straight ones unless the creature is still on its first tile. */
  predicate Edge(w: World, fpp: FindPathParams, p: Pos, q: Pos) {
    && p != q
    && Abs(p.x - q.x) <= 1
    && Abs(p.y - q.y) <= 1
    && (fpp.allowDiagonal || p == w.start || p.x == q.x || p.y == q.y)
  }

  /** A walk from the creature's tile over admitted tiles. */
  ghost predicate Walk(w: World, fpp: FindPathParams, path: seq<Pos>) {
    && |path| > 0
    && path[0] == w.start
    && forall k :: 0 < k < |path| ==> Admitted(w, fpp, path[k]) && Edge(w, fpp, path[k-1], path[k])
  }

  function WalkCost(w: World, path: seq<Pos>): (c: int)
    ensures 0 <= c
  {
    if |path| <= 1 then 0
    else
      var n := |path| - 1;
      WalkCost(w, path[..n]) + MoveCost(w, path[n-1], path[n])
  }

  /** The positions a creature at p passes when it follows the directions. */
  function Replay(p: Pos, dirs: seq<Direction>): (path: seq<Pos>)
    ensures |path| == |dirs| + 1 && path[0] == p
    decreases |dirs|
  {
    if dirs == [] then [p] else [p] + Replay(Step(p, Offset(dirs[0])), dirs[1..])
  }
}
