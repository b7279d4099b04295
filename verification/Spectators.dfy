/** The spectator query: a walk along the links of the leaves that a window touches. */
module Spectators {
  import opened Basics
  import opened QuadKeys
  import opened QuadTree
  import opened MapIndex

  /** Whom to look for: the creatures, or only the players, around a centre. */
  datatype Query = Query(
    x: nat, y: nat, z: nat,
    minRangeX: int, maxRangeX: int, minRangeY: int, maxRangeY: int, minRangeZ: int, maxRangeZ: int,
    onlyPlayers: bool)

  /** The window is moved by one field for each floor up or down. */
  ghost predicate InWindow(q: Query, c: Creature)
    reads c`x, c`y, c`z
  {
    var offsetZ := q.z - c.z;
    && q.minRangeZ <= c.z <= q.maxRangeZ
    && q.y + q.minRangeY + offsetZ <= c.y <= q.y + q.maxRangeY + offsetZ
    && q.x + q.minRangeX + offsetZ <= c.x <= q.x + q.maxRangeX + offsetZ
  }

  /** The plain meaning of the query. */
  ghost predicate Wanted(q: Query, c: Creature)
    reads c`x, c`y, c`z
  {
    (q.onlyPlayers ==> c.isPlayer) && InWindow(q, c)
  }

  function Clamp(v: int): nat {
    if v < 0 then 0 else if v > 0xFFFF then 0xFFFF else v
  }

  function BlockStart(v: nat): (b: nat)
    ensures b == FLOOR_SIZE * (v / FLOOR_SIZE) && b <= v < b + FLOOR_SIZE
  {
    v - v % FLOOR_SIZE
  }

  /** A creature in the window stands in the clamped window that covers all floors. */
  lemma ClampedWindow(q: Query, c: Creature)
    requires InWindow(q, c) && c.x < 0x1_0000 && c.y < 0x1_0000
    ensures Clamp(q.x + q.minRangeX + q.z - q.maxRangeZ) <= c.x <= Clamp(q.x + q.maxRangeX + q.z - q.minRangeZ)
    ensures Clamp(q.y + q.minRangeY + q.z - q.maxRangeZ) <= c.y <= Clamp(q.y + q.maxRangeY + q.z - q.minRangeZ)
  {
  }

  /** The leaf at a block corner covers the eight fields from there on. */
  lemma BlockLeaf(left: nat, top: nat, x: nat, y: nat)
    requires left % FLOOR_SIZE == 0 && top % FLOOR_SIZE == 0
    requires left < 0x1_0000 && top < 0x1_0000 && x < 0x1_0000 && y < 0x1_0000
    ensures LeafOf(x, y) == LeafOf(left, top) <==> left <= x < left + FLOOR_SIZE && top <= y < top + FLOOR_SIZE
  {
    LeafOfPlain(x, y);
    LeafOfPlain(left, top);
    BlockCoordinate(left, x);
    BlockCoordinate(top, y);
  }

  lemma BlockCoordinate(b: nat, v: nat)
    requires b % FLOOR_SIZE == 0
    ensures v / FLOOR_SIZE == b / FLOOR_SIZE <==> b <= v < b + FLOOR_SIZE
  {
    assert b == FLOOR_SIZE * (b / FLOOR_SIZE);
    assert v == FLOOR_SIZE * (v / FLOOR_SIZE) + v % FLOOR_SIZE;
  }

  /** Following a link, or looking up the leaf a block further, comes to the same. */
  lemma NextBlock(x: nat, y: nat)
    requires x < 0x1_0000 && y < 0x1_0000
    ensures LeafOf(x + FLOOR_SIZE, y) == EastOf(LeafOf(x, y))
    ensures LeafOf(x, y + FLOOR_SIZE) == SouthOf(LeafOf(x, y))
  {
    StepForward(x);
    StepForward(y);
    StepNone(x);
    StepNone(y);
    NoOverflow(x + FLOOR_SIZE);
    NoOverflow(y + FLOOR_SIZE);
  }

  lemma NoOverflow(v: nat)
    requires v < UINT32
    ensures U32(v) == v
  {
  }

  /** What r has more than list: the wanted creatures of a part of the map. */
  ghost predicate Found(m: Map, q: Query, list: set<Creature>, r: set<Creature>, x1: int, x2: int, y1: int, y2: int)
    reads m`placed, m.placed`x, m.placed`y, m.placed`z
  {
    && list <= r
    && (forall c :: c in r && c !in list ==> c in m.placed && Wanted(q, c) && x1 <= c.x < x2 && y1 <= c.y < y2)
    && (forall c :: c in m.placed && Wanted(q, c) && x1 <= c.x < x2 && y1 <= c.y < y2 ==> c in r)
  }

  lemma FoundBeside(m: Map, q: Query, list: set<Creature>, r: set<Creature>, r': set<Creature>,
                    x1: int, x2: int, x3: int, y1: int, y2: int)
    requires Found(m, q, list, r, x1, x2, y1, y2) && Found(m, q, r, r', x2, x3, y1, y2) && x1 <= x2 <= x3
    ensures Found(m, q, list, r', x1, x3, y1, y2)
  {
  }

  lemma FoundBelow(m: Map, q: Query, list: set<Creature>, r: set<Creature>, r': set<Creature>,
                   x1: int, x2: int, y1: int, y2: int, y3: int)
    requires Found(m, q, list, r, x1, x2, y1, y2) && Found(m, q, r, r', x1, x2, y2, y3) && y1 <= y2 <= y3
    ensures Found(m, q, list, r', x1, x2, y1, y3)
  {
  }

  /** The wanted creatures of one leaf, by its corner. */
  method Collect(m: Map, q: Query, list: set<Creature>, leaf: QTreeNode,
                 ghost nx: nat, ghost ny: nat, ghost kx: nat, ghost ky: nat)
    returns (r: set<Creature>)
    requires m.Valid() && LeafOf(nx, ny) in m.at && m.at[LeafOf(nx, ny)] == leaf
    requires OnGrid(nx, kx) && OnGrid(ny, ky)
    ensures Found(m, q, list, r, nx, nx + FLOOR_SIZE, ny, ny + FLOOR_SIZE)
  {
    r := CollectList(m, q, list, leaf, LeafOf(nx, ny));
    LeafCovers(m, nx, ny, kx, ky);
  }

  /** The wanted creatures in the lists of a leaf. */
  method CollectList(m: Map, q: Query, list: set<Creature>, leaf: QTreeNode, ghost l: Key) returns (r: set<Creature>)
    requires m.Valid() && l in m.at && m.at[l] == leaf && l.level == DEPTH
    ensures list <= r && forall c :: c in r && c !in list ==> c in m.placed && InLeaf(c, l) && Wanted(q, c)
    ensures forall c :: c in m.placed && InLeaf(c, l) && Wanted(q, c) ==> c in r
  {
    assert ListsOk(leaf, l, m.placed);
    r := list;
    var nodeList := if q.onlyPlayers then leaf.playerList else leaf.creatureList;
    for i := 0 to |nodeList|
      invariant forall c :: c in r <==> c in list || (c in nodeList[..i] && InWindow(q, c))
    {
      var c := nodeList[i];
      if q.minRangeZ > c.z || q.maxRangeZ < c.z {
        continue;
      }
      var offsetZ := q.z - c.z;
      if q.y + q.minRangeY + offsetZ > c.y || q.y + q.maxRangeY + offsetZ < c.y
         || q.x + q.minRangeX + offsetZ > c.x || q.x + q.maxRangeX + offsetZ < c.x {
        continue;
      }
      r := r + {c};
    }
  }

  /** The creatures in a leaf are those in its eight by eight fields; without a leaf there are none. */
  lemma LeafCovers(m: Map, nx: nat, ny: nat, kx: nat, ky: nat)
    requires m.Valid() && OnGrid(nx, kx) && OnGrid(ny, ky)
    ensures forall c {:trigger InLeaf(c, LeafOf(nx, ny))} :: c in m.placed ==>
              (InLeaf(c, LeafOf(nx, ny)) <==> nx <= c.x < nx + FLOOR_SIZE && ny <= c.y < ny + FLOOR_SIZE)
    ensures LeafOf(nx, ny) !in m.at ==>
              forall c :: c in m.placed ==> !(nx <= c.x < nx + FLOOR_SIZE && ny <= c.y < ny + FLOOR_SIZE)
  {
    forall c | c in m.placed
      ensures InLeaf(c, LeafOf(nx, ny)) <==> nx <= c.x < nx + FLOOR_SIZE && ny <= c.y < ny + FLOOR_SIZE
    {
      BlockLeaf(nx, ny, c.x, c.y);
    }
  }

  /** A corner of a block. */
  predicate OnGrid(v: nat, k: nat) { v == FLOOR_SIZE * k && v < 0x1_0000 }

  /** The window that is walked over, in blocks. */
  lemma WindowCovers(m: Map, q: Query, list: set<Creature>, r: set<Creature>, x1: int, x2: int, y1: int, y2: int)
    requires m.Valid() && Found(m, q, list, r, x1, x2, y1, y2)
    requires x1 <= Clamp(q.x + q.minRangeX + q.z - q.maxRangeZ) && Clamp(q.x + q.maxRangeX + q.z - q.minRangeZ) < x2
    requires y1 <= Clamp(q.y + q.minRangeY + q.z - q.maxRangeZ) && Clamp(q.y + q.maxRangeY + q.z - q.minRangeZ) < y2
    ensures forall c :: c in r <==> c in list || (c in m.placed && Wanted(q, c))
  {
    forall c | c in m.placed && InWindow(q, c)
      ensures x1 <= c.x < x2 && y1 <= c.y < y2
    {
      ClampedWindow(q, c);
    }
  }

  /** Adds to the list every creature on the map that the query wants, and no other. */
  method GetSpectators(m: Map, q: Query, list: set<Creature>) returns (r: set<Creature>)
    requires m.Valid()
    ensures forall c :: c in r <==> c in list || (c in m.placed && Wanted(q, c))
  {
    var x1 := Clamp(q.x + q.minRangeX + q.z - q.maxRangeZ);
    var y1 := Clamp(q.y + q.minRangeY + q.z - q.maxRangeZ);
    var x2 := Clamp(q.x + q.maxRangeX + q.z - q.minRangeZ);
    var y2 := Clamp(q.y + q.maxRangeY + q.z - q.minRangeZ);
    var startx1, starty1, endx2, endy2 := BlockStart(x1), BlockStart(y1), BlockStart(x2), BlockStart(y2);
    ghost var right, bottom := PastEnd(startx1, endx2), PastEnd(starty1, endy2);
    r := WalkRows(m, q, list, startx1, starty1, endx2, endy2, right, bottom,
                  x1 / FLOOR_SIZE, y1 / FLOOR_SIZE, x2 / FLOOR_SIZE, y2 / FLOOR_SIZE);
    WindowCovers(m, q, list, r, startx1, right, starty1, bottom);
  }

  /** The walk over all rows, from the top down. */
  method WalkRows(m: Map, q: Query, list: set<Creature>, startx1: nat, starty1: nat, endx2: nat, endy2: nat,
                  ghost right: nat, ghost bottom: nat, ghost k1: nat, ghost l1: nat, ghost k2: nat, ghost l2: nat)
    returns (r: set<Creature>)
    requires m.Valid() && OnGrid(startx1, k1) && OnGrid(endx2, k2) && OnGrid(starty1, l1) && OnGrid(endy2, l2)
    requires right == PastEnd(startx1, endx2) && bottom == PastEnd(starty1, endy2)
    ensures Found(m, q, list, r, startx1, right, starty1, bottom)
  {
    var leafS := m.GetQTNode(startx1, starty1);
    r := list;
    var ny := starty1;
    ghost var ky := l1;
    while ny <= endy2
      invariant ny == FLOOR_SIZE * ky && starty1 <= ny <= bottom
      invariant leafS == Find(m.at, LeafOf(startx1, ny))
      invariant Found(m, q, list, r, startx1, right, starty1, ny)
    {
      r, leafS := WalkRow(m, q, list, r, startx1, endx2, starty1, ny, leafS, right, k1, k2, ky);
      ny, ky := ny + FLOOR_SIZE, ky + 1;
    }
    EndsThere(starty1, endy2, ny, bottom, l1, l2, ky);
  }

  /** One row more, and the first leaf of the next one. */
  method WalkRow(m: Map, q: Query, ghost list: set<Creature>, r: set<Creature>, startx1: nat, endx2: nat,
                 ghost starty1: nat,
                 ny: nat, leafS: QTreeNode?, ghost right: nat, ghost k1: nat, ghost k2: nat, ghost ky: nat)
    returns (r': set<Creature>, next: QTreeNode?)
    requires m.Valid() && OnGrid(startx1, k1) && OnGrid(endx2, k2) && OnGrid(ny, ky) && starty1 <= ny
    requires leafS == Find(m.at, LeafOf(startx1, ny)) && right == PastEnd(startx1, endx2)
    requires Found(m, q, list, r, startx1, right, starty1, ny)
    ensures next == Find(m.at, LeafOf(startx1, ny + FLOOR_SIZE))
    ensures Found(m, q, list, r', startx1, right, starty1, ny + FLOOR_SIZE)
  {
    r' := GetRow(m, q, r, startx1, endx2, ny, leafS, right, k1, k2, ky);
    FoundBelow(m, q, list, r, r', startx1, right, starty1, ny, ny + FLOOR_SIZE);
    next := NextRow(m, startx1, ny, leafS, k1, ky);
  }

  /** Where the walk along a row ends. */
  ghost function PastEnd(start: nat, end: nat): nat { if end < start then start else end + FLOOR_SIZE }

  /** The first leaf of the next row: along the link, or looked up where there is none to follow. */
  method NextRow(m: Map, startx1: nat, ny: nat, leafS: QTreeNode?, ghost k1: nat, ghost ky: nat)
    returns (next: QTreeNode?)
    requires m.Valid() && OnGrid(startx1, k1) && OnGrid(ny, ky)
    requires leafS == Find(m.at, LeafOf(startx1, ny))
    ensures next == Find(m.at, LeafOf(startx1, ny + FLOOR_SIZE))
  {
    NextBlock(startx1, ny);
    if leafS != null {
      assert LinkOk(m.at, LeafOf(startx1, ny));
      next := leafS.leafS;
    } else {
      next := m.GetQTNode(startx1, ny + FLOOR_SIZE);
    }
  }

  /** The leaf to the east, likewise. */
  method NextLeaf(m: Map, nx: nat, ny: nat, leafE: QTreeNode?, ghost kx: nat, ghost ky: nat) returns (next: QTreeNode?)
    requires m.Valid() && OnGrid(nx, kx) && OnGrid(ny, ky)
    requires leafE == Find(m.at, LeafOf(nx, ny))
    ensures next == Find(m.at, LeafOf(nx + FLOOR_SIZE, ny))
  {
    NextBlock(nx, ny);
    if leafE != null {
      assert LinkOk(m.at, LeafOf(nx, ny));
      next := leafE.leafE;
    } else {
      next := m.GetQTNode(nx + FLOOR_SIZE, ny);
    }
  }

  /** One row of leaves, from left to right. */
  method GetRow(m: Map, q: Query, list: set<Creature>, startx1: nat, endx2: nat, ny: nat, leafS: QTreeNode?,
                ghost right: nat, ghost k1: nat, ghost k2: nat, ghost ky: nat)
    returns (r: set<Creature>)
    requires m.Valid() && OnGrid(startx1, k1) && OnGrid(endx2, k2) && OnGrid(ny, ky)
    requires leafS == Find(m.at, LeafOf(startx1, ny))
    requires right == PastEnd(startx1, endx2)
    ensures Found(m, q, list, r, startx1, right, ny, ny + FLOOR_SIZE)
  {
    r := list;
    var leafE := leafS;
    var nx := startx1;
    ghost var kx := k1;
    while nx <= endx2
      invariant nx == FLOOR_SIZE * kx && startx1 <= nx <= right
      invariant leafE == Find(m.at, LeafOf(nx, ny))
      invariant Found(m, q, list, r, startx1, nx, ny, ny + FLOOR_SIZE)
    {
      r, leafE := GetBlock(m, q, list, r, startx1, nx, ny, leafE, kx, ky);
      nx, kx := nx + FLOOR_SIZE, kx + 1;
    }
    EndsThere(startx1, endx2, nx, right, k1, k2, kx);
  }

  lemma EndsThere(start: nat, end: nat, n: nat, right: nat, k1: nat, k2: nat, k: nat)
    requires OnGrid(start, k1) && OnGrid(end, k2) && n == FLOOR_SIZE * k && n > end
    requires right == PastEnd(start, end) && start <= n <= right
    ensures n == right
  {
  }

  /** One block of a row, and the leaf of the next one. */
  method GetBlock(m: Map, q: Query, ghost list: set<Creature>, r: set<Creature>, ghost startx1: nat, nx: nat, ny: nat,
                  leafE: QTreeNode?, ghost kx: nat, ghost ky: nat)
    returns (r': set<Creature>, next: QTreeNode?)
    requires m.Valid() && OnGrid(nx, kx) && OnGrid(ny, ky) && startx1 <= nx
    requires leafE == Find(m.at, LeafOf(nx, ny))
    requires Found(m, q, list, r, startx1, nx, ny, ny + FLOOR_SIZE)
    ensures next == Find(m.at, LeafOf(nx + FLOOR_SIZE, ny))
    ensures Found(m, q, list, r', startx1, nx + FLOOR_SIZE, ny, ny + FLOOR_SIZE)
  {
    r' := r;
    if leafE != null {
      r' := Collect(m, q, r, leafE, nx, ny, kx, ky);
    } else {
      LeafCovers(m, nx, ny, kx, ky);
    }
    FoundBeside(m, q, list, r, r', startx1, nx, nx + FLOOR_SIZE, ny, ny + FLOOR_SIZE);
    next := NextLeaf(m, nx, ny, leafE, kx, ky);
  }
}
