/** The map: the tiles and creatures that the leaves of the quadtree hold, and the links between the leaves. */
module MapIndex {
  import opened Basics
  import opened QuadKeys
  import opened QuadTree

  type Coordinate = (nat, nat, nat)

  predicate OnMap(p: Coordinate) { p.0 < 0x1_0000 && p.1 < 0x1_0000 && p.2 < MAP_MAX_LAYERS }

  const EMPTY_FLOOR: Floor := seq(FLOOR_SIZE, _ => seq(FLOOR_SIZE, _ => None))

  predicate FloorShaped(f: Option<Floor>) {
    f.Some? ==> |f.value| == FLOOR_SIZE && forall i :: 0 <= i < FLOOR_SIZE ==> |f.value[i]| == FLOOR_SIZE
  }

  /** The leaf at k knows the leaf below and the leaf to the right of it, if they exist. */
  ghost predicate LinkOk(at: map<Key, QTreeNode>, k: Key)
    requires k in at
    reads {at[k]}`leafS, {at[k]}`leafE
  {
    && k.x < SIDE
    && k.y < SIDE
    && at[k].leafS == Find(at, SouthOf(k))
    && at[k].leafE == Find(at, EastOf(k))
  }

  ghost predicate LinksOk(at: map<Key, QTreeNode>)
    reads at.Values`leafS, at.Values`leafE
  {
    forall k {:trigger LinkOk(at, k)} :: k in at && k.level == DEPTH ==> LinkOk(at, k)
  }

  ghost predicate FloorsShaped(n: QTreeNode)
    reads n`floors
  {
    |n.floors| == MAP_MAX_LAYERS && forall z :: 0 <= z < MAP_MAX_LAYERS ==> FloorShaped(n.floors[z])
  }

  /** What the floors of a leaf hold at a place. */
  function CellAt(floors: seq<Option<Floor>>, z: nat, i: nat, j: nat): Option<TileId>
    requires z < |floors| && FloorShaped(floors[z]) && i < FLOOR_SIZE && j < FLOOR_SIZE
  {
    if floors[z].Some? then floors[z].value[i][j] else None
  }

  /** What the tree holds at a coordinate. */
  ghost function Cell(at: map<Key, QTreeNode>, p: Coordinate): Option<TileId>
    reads at.Values`floors
  {
    var k := LeafOf(p.0, p.1);
    if k in at && FloorsShaped(at[k]) && p.2 < MAP_MAX_LAYERS then
      CellAt(at[k].floors, p.2, p.0 % FLOOR_SIZE, p.1 % FLOOR_SIZE)
    else None
  }

  ghost function Entry(tiles: map<Coordinate, TileId>, p: Coordinate): Option<TileId> {
    if p in tiles then Some(tiles[p]) else None
  }

  ghost predicate HasTile(tiles: map<Coordinate, TileId>, k: Key) {
    exists p :: p in tiles && LeafOf(p.0, p.1) == k
  }

  ghost predicate FloorsOk(at: map<Key, QTreeNode>)
    reads at.Values`floors
  {
    forall k {:trigger at[k]} :: k in at && k.level == DEPTH ==> FloorsShaped(at[k])
  }

  /** The tree refines the plain map from coordinates to tiles. */
  ghost predicate CellsOk(at: map<Key, QTreeNode>, tiles: map<Coordinate, TileId>)
    reads at.Values`floors
  {
    && (forall p {:trigger p in tiles} :: p in tiles ==> OnMap(p))
    && (forall p {:trigger Cell(at, p)} :: OnMap(p) ==> Cell(at, p) == Entry(tiles, p))
  }

  /** There is no leaf without a tile, except perhaps one. */
  ghost predicate Occupied(at: map<Key, QTreeNode>, tiles: map<Coordinate, TileId>, except: Option<Key>) {
    forall k {:trigger HasTile(tiles, k)} :: k in at && k.level == DEPTH && Some(k) != except ==> HasTile(tiles, k)
  }

  ghost predicate TilesOk(at: map<Key, QTreeNode>, tiles: map<Coordinate, TileId>)
    reads at.Values`floors
  {
    FloorsOk(at) && CellsOk(at, tiles) && Occupied(at, tiles, None)
  }

  ghost predicate InLeaf(c: Creature, k: Key)
    reads c`x, c`y
  {
    LeafOf(c.x, c.y) == k
  }

  /** A leaf lists exactly the creatures that stand in it, each once. */
  ghost predicate ListsOk(n: QTreeNode, k: Key, placed: set<Creature>)
    reads n`creatureList, n`playerList, placed`x, placed`y
  {
    && Distinct(n.creatureList)
    && Distinct(n.playerList)
    && (forall c :: c in n.creatureList ==> c in placed && InLeaf(c, k))
    && (forall c :: c in placed && InLeaf(c, k) ==> c in n.creatureList)
    && (forall c :: c in n.playerList ==> c in placed && c.isPlayer && InLeaf(c, k))
    && (forall c :: c in placed && c.isPlayer && InLeaf(c, k) ==> c in n.playerList)
  }

  ghost predicate CreaturesOk(at: map<Key, QTreeNode>, placed: set<Creature>)
    reads at.Values`creatureList, at.Values`playerList, placed`x, placed`y, placed`z
  {
    && (forall k {:trigger ListsOk(at[k], k, placed)} :: k in at && k.level == DEPTH ==> ListsOk(at[k], k, placed))
    && (forall c :: c in placed ==> OnMap((c.x, c.y, c.z)) && LeafOf(c.x, c.y) in at)
  }

  lemma SameNode(at: map<Key, QTreeNode>, k: Key, l: Key)
    requires TreeOk(at)
    ensures k in at && l in at && at[k] == at[l] ==> k == l
  {
    assert k in at ==> NodeOk(at, k);
    assert l in at ==> NodeOk(at, l);
  }

  lemma OnlyNode(at: map<Key, QTreeNode>, l: Key)
    requires TreeOk(at) && l in at
    ensures forall k :: k in at && at[k] == at[l] ==> k == l
  {
    forall k | k in at && at[k] == at[l]
      ensures k == l
    {
      SameNode(at, k, l);
    }
  }

  lemma LinkedKeys(k: Key, l: Key)
    requires k.level == l.level == DEPTH && k.x < SIDE && k.y < SIDE && l.x < SIDE && l.y < SIDE
    ensures SouthOf(k) == l <==> k == NorthOf(l)
    ensures EastOf(k) == l <==> k == WestOf(l)
    ensures SouthOf(k) != k && EastOf(k) != k
  {
  }

  /** A link after the new leaf was threaded in. */
  ghost function Threaded(before: bool, leaf: QTreeNode, same: bool, next: QTreeNode?, was: QTreeNode?): QTreeNode? {
    if same && next != null then next else if before then leaf else was
  }

  lemma ThreadedIsLinked(at0: map<Key, QTreeNode>, at: map<Key, QTreeNode>, l: Key, k: Key)
    requires l in at && l !in at0 && Extends(at0, at, l) && k.level == l.level == DEPTH
    requires l.x < SIDE && l.y < SIDE && k.x < SIDE && k.y < SIDE
    ensures Threaded(k == NorthOf(l), at[l], k == l, Find(at, SouthOf(l)),
        if k == l then null else Find(at0, SouthOf(k)))
         == Find(at, SouthOf(k))
    ensures Threaded(k == WestOf(l), at[l], k == l, Find(at, EastOf(l)), if k == l then null else Find(at0, EastOf(k)))
         == Find(at, EastOf(k))
  {
    LinkedKeys(k, l);
  }

  /** Writes a tile into a cell of a leaf that is empty; any other cell stays. */
  method WriteCell(i: nat, j: nat, z: nat, newTile: TileId, leaf: QTreeNode) returns (written: bool)
    requires FloorsShaped(leaf) && z < MAP_MAX_LAYERS && i < FLOOR_SIZE && j < FLOOR_SIZE
    modifies leaf`floors
    ensures FloorsShaped(leaf) && written == old(CellAt(leaf.floors, z, i, j)).None?
    ensures forall z', i', j' {:trigger CellAt(leaf.floors, z', i', j')} ::
              0 <= z' < MAP_MAX_LAYERS && 0 <= i' < FLOOR_SIZE && 0 <= j' < FLOOR_SIZE ==>
              CellAt(leaf.floors, z', i', j') ==
              if written && z' == z && i' == i && j' == j then Some(newTile) else old(CellAt(leaf.floors, z', i', j'))
  {
    var floor: Floor := if leaf.floors[z].Some? then leaf.floors[z].value else EMPTY_FLOOR;
    var cell: Option<TileId> := floor[i][j];
    written := cell.None?;
    if written {
      floor := floor[i := floor[i][j := Some(newTile)]];
    }
    leaf.floors := leaf.floors[z := Some(floor)];
  }

  class Map {
    const root: QTreeNode
    ghost var at: map<Key, QTreeNode>
    ghost var tiles: map<Coordinate, TileId>
    ghost var placed: set<Creature>

    ghost predicate Valid()
      reads this, at.Values, placed
    {
      && TreeOk(at) && at[Root()] == root
      && LinksOk(at)
      && TilesOk(at, tiles)
      && CreaturesOk(at, placed)
    }

    constructor ()
      ensures Valid() && fresh(at.Values) && tiles == map[] && placed == {}
    {
      root := new QTreeNode(Root(), false);
      at := map[Root() := root];
      tiles := map[];
      placed := {};
    }

    /** The leaf that covers (x, y); null if there is none. */
    method GetQTNode(x: nat, y: nat) returns (r: QTreeNode?)
      requires TreeOk(at) && at[Root()] == root && x < UINT32 && y < UINT32
      ensures r == Find(at, LeafOf(x, y))
    {
      assert NodeOk(at, Root());
      r := root.GetLeaf(x, y, at);
      LeafKeyFromRoot(x, y);
    }

    method GetTile(x: nat, y: nat, z: nat) returns (t: Option<TileId>)
      requires Valid() && x < 0x1_0000 && y < 0x1_0000
      ensures t == Entry(tiles, (x, y, z))
    {
      if z >= MAP_MAX_LAYERS {
        return None;
      }
      var leaf := GetQTNode(x, y);
      assert Cell(at, (x, y, z)) == Entry(tiles, (x, y, z));
      if leaf == null {
        return None;
      }
      var floor := leaf.floors[z];
      if floor.None? {
        return None;
      }
      return floor.value[x % FLOOR_SIZE][y % FLOOR_SIZE];
    }

    /** Threads a new leaf into the links. Before, the links are those of the tree at0 without it. */
    method LinkLeaf(x: nat, y: nat, leaf: QTreeNode, ghost at0: map<Key, QTreeNode>)
      requires TreeOk(at) && at[Root()] == root && x < 0x1_0000 && y < 0x1_0000
      requires LeafOf(x, y) in at && at[LeafOf(x, y)] == leaf && leaf.leafS == null && leaf.leafE == null
      requires LeafOf(x, y) !in at0 && Extends(at0, at, LeafOf(x, y)) && LinksOk(at0)
      modifies at.Values`leafS, at.Values`leafE
      ensures LinksOk(at)
    {
      ghost var l := LeafOf(x, y);
      Neighbours(x, y);
      ghost var north, west, south, east := NorthOf(l), WestOf(l), SouthOf(l), EastOf(l);
      // the look-ups read no links, so they can all come first
      var northLeaf := GetQTNode(U32(x), U32(y - FLOOR_SIZE));
      var westLeaf := GetQTNode(U32(x - FLOOR_SIZE), U32(y));
      var southLeaf := GetQTNode(U32(x), U32(y + FLOOR_SIZE));
      var eastLeaf := GetQTNode(U32(x + FLOOR_SIZE), U32(y));
      forall k | k in at
        ensures at[k] == leaf <==> k == l
        ensures at[k] == northLeaf <==> k == north
        ensures at[k] == westLeaf <==> k == west
      {
        SameNode(at, k, l);
        SameNode(at, k, north);
        SameNode(at, k, west);
      }
      if northLeaf != null {
        northLeaf.leafS := leaf;
      }
      if westLeaf != null {
        westLeaf.leafE := leaf;
      }
      if southLeaf != null {
        leaf.leafS := southLeaf;
      }
      if eastLeaf != null {
        leaf.leafE := eastLeaf;
      }
      forall k | k in at && k.level == DEPTH
        ensures LinkOk(at, k)
      {
        ghost var n := at[k];
        assert n.leafS == Threaded(k == north, leaf, k == l, southLeaf, old(n.leafS));
        assert n.leafE == Threaded(k == west, leaf, k == l, eastLeaf, old(n.leafE));
        if k != l {
          assert k in at0 && old(LinkOk(at0, k));
        }
        ThreadedIsLinked(at0, at, l, k);
      }
    }

    /** The leaf that covers (x, y), made and linked if it is not there yet. */
    method LinkedLeaf(x: nat, y: nat) returns (leaf: QTreeNode)
      requires TreeOk(at) && at[Root()] == root && LinksOk(at) && x < 0x1_0000 && y < 0x1_0000
      modifies this`at, at.Values`child, at.Values`leafS, at.Values`leafE
      ensures TreeOk(at) && at[Root()] == root && LinksOk(at)
      ensures Extends(old(at), at, LeafOf(x, y)) && fresh(at.Values - old(at.Values))
      ensures LeafOf(x, y) in at && at[LeafOf(x, y)] == leaf
      ensures LeafOf(x, y) !in old(at) ==>
                leaf.creatureList == [] && leaf.playerList == [] && leaf.floors == seq(MAP_MAX_LAYERS, _ => None)
    {
      ghost var at0 := at;
      assert NodeOk(at, Root());
      LeafKeyFromRoot(x, y);
      var newLeaf;
      ghost var at1;
      leaf, newLeaf, at1 := root.CreateLeaf(x, y, 15, at);
      at := at1;
      if newLeaf {
        LinkLeaf(x, y, leaf, at0);
      } else {
        forall k | k in at && k.level == DEPTH
          ensures LinkOk(at, k)
        {
          assert old(LinkOk(at, k));
        }
      }
    }

    /** The same, with what becomes of the tiles and creatures: nothing. */
    method LeafFor(x: nat, y: nat) returns (leaf: QTreeNode)
      requires Valid() && x < 0x1_0000 && y < 0x1_0000
      modifies this`at, at.Values`child, at.Values`leafS, at.Values`leafE
      ensures TreeOk(at) && at[Root()] == root && LinksOk(at) && CreaturesOk(at, placed)
      ensures FloorsOk(at) && CellsOk(at, tiles) && Occupied(at, tiles, Some(LeafOf(x, y)))
      ensures fresh(at.Values - old(at.Values))
      ensures LeafOf(x, y) in at && at[LeafOf(x, y)] == leaf
    {
      leaf := LinkedLeaf(x, y);
      forall k | k in at && k.level == DEPTH
        ensures ListsOk(at[k], k, placed)
      {
        assert k in old(at) ==> old(ListsOk(at[k], k, placed));
      }
      forall p | OnMap(p)
        ensures Cell(at, p) == Entry(tiles, p)
      {
        assert old(Cell(at, p)) == Entry(tiles, p);
      }
    }

    /** Writes a tile into an empty cell of its leaf. */
    method FillCell(x: nat, y: nat, z: nat, newTile: TileId, leaf: QTreeNode)
      requires x < 0x1_0000 && y < 0x1_0000 && z < MAP_MAX_LAYERS
      requires TreeOk(at) && LeafOf(x, y) in at && at[LeafOf(x, y)] == leaf
      requires FloorsOk(at) && CellsOk(at, tiles) && Occupied(at, tiles, Some(LeafOf(x, y)))
      modifies this`tiles, leaf`floors
      ensures TilesOk(at, tiles)
      ensures tiles == if (x, y, z) in old(tiles) then old(tiles) else old(tiles)[(x, y, z) := newTile]
    {
      ghost var p, l, tiles0 := (x, y, z), LeafOf(x, y), tiles;
      assert Cell(at, p) == Entry(tiles, p);
      var written := WriteCell(x % FLOOR_SIZE, y % FLOOR_SIZE, z, newTile, leaf);
      if written {
        tiles := tiles[p := newTile];
      }
      OnlyNode(at, l);
      StillOccupied(at, tiles0, tiles, p);
      forall q | OnMap(q)
        ensures Cell(at, q) == Entry(tiles, q)
      {
        assert old(Cell(at, q)) == Entry(tiles0, q);
        SameCell(p, q);
      }
    }

    lemma StillOccupied(at: map<Key, QTreeNode>, tiles0: map<Coordinate, TileId>, tiles: map<Coordinate, TileId>,
                        p: Coordinate)
      requires Occupied(at, tiles0, Some(LeafOf(p.0, p.1))) && p in tiles && forall q :: q in tiles0 ==> q in tiles
      ensures Occupied(at, tiles, None)
    {
      forall k | k in at && k.level == DEPTH
        ensures HasTile(tiles, k)
      {
        assert k != LeafOf(p.0, p.1) ==> HasTile(tiles0, k);
      }
    }

    /** Puts a tile on the map; a coordinate that has a tile already keeps it. */
    method SetTile(x: nat, y: nat, z: nat, newTile: TileId)
      requires Valid() && x < 0x1_0000 && y < 0x1_0000
      modifies this, at.Values
      ensures Valid() && fresh(at.Values - old(at.Values)) && placed == old(placed)
      ensures tiles == if z < MAP_MAX_LAYERS && (x, y, z) !in old(tiles) then old(tiles)[(x, y, z) := newTile]
                       else old(tiles)
    {
      if z >= MAP_MAX_LAYERS {
        return;
      }
      var leaf := LeafFor(x, y);
      FillCell(x, y, z, newTile, leaf);
    }

    // ---- creatures

    /** Puts a creature on the tile at p and into the lists of its leaf. */
    method PlaceCreature(c: Creature, x: nat, y: nat, z: nat)
      requires Valid() && c !in placed && (x, y, z) in tiles
      modifies this`placed, c`x, c`y, c`z, at.Values`creatureList, at.Values`playerList
      ensures Valid() && placed == old(placed) + {c}
      ensures c.x == x && c.y == y && c.z == z
    {
      TileHasLeaf((x, y, z));
      var leaf := GetQTNode(x, y);
      Enter(c, x, y, z, leaf);
    }

    /** The part of placing that touches creatures and lists. */
    method Enter(c: Creature, x: nat, y: nat, z: nat, leaf: QTreeNode)
      requires TreeOk(at) && CreaturesOk(at, placed) && c !in placed && OnMap((x, y, z))
      requires LeafOf(x, y) in at && at[LeafOf(x, y)] == leaf
      modifies this`placed, c`x, c`y, c`z, leaf`creatureList, leaf`playerList
      ensures CreaturesOk(at, placed) && placed == old(placed) + {c}
      ensures c.x == x && c.y == y && c.z == z
    {
      ghost var l := LeafOf(x, y);
      OnlyNode(at, l);
      c.x, c.y, c.z := x, y, z;
      leaf.AddCreature(c);
      placed := placed + {c};
      forall k | k in at && k.level == DEPTH
        ensures ListsOk(at[k], k, placed)
      {
        assert old(ListsOk(at[k], k, placed));
      }
    }

    /** Takes a creature off the map. */
    method RemoveCreature(c: Creature)
      requires Valid() && c in placed
      modifies this`placed, at.Values`creatureList, at.Values`playerList
      ensures Valid() && placed == old(placed) - {c}
    {
      var leaf := GetQTNode(c.x, c.y);
      Leave(c, leaf);
    }

    method Leave(c: Creature, leaf: QTreeNode)
      requires TreeOk(at) && CreaturesOk(at, placed) && c in placed
      requires LeafOf(c.x, c.y) in at && at[LeafOf(c.x, c.y)] == leaf
      modifies this`placed, leaf`creatureList, leaf`playerList
      ensures CreaturesOk(at, placed) && placed == old(placed) - {c}
    {
      ghost var l := LeafOf(c.x, c.y);
      OnlyNode(at, l);
      assert ListsOk(at[l], l, placed);
      leaf.RemoveCreature(c);
      placed := placed - {c};
      forall k | k in at && k.level == DEPTH
        ensures ListsOk(at[k], k, placed)
      {
        assert old(ListsOk(at[k], k, placed));
      }
    }

    /** Moves a creature to the tile at (x, y, z); it changes lists only when it changes leaves. */
    method MoveCreature(c: Creature, x: nat, y: nat, z: nat)
      requires Valid() && c in placed && (x, y, z) in tiles
      modifies this`placed, c`x, c`y, c`z, at.Values`creatureList, at.Values`playerList
      ensures Valid() && placed == old(placed)
      ensures c.x == x && c.y == y && c.z == z
    {
      TileHasLeaf((x, y, z));
      var leaf := GetQTNode(c.x, c.y);
      var newLeaf := GetQTNode(x, y);
      SwitchLeaf(c, x, y, z, leaf, newLeaf);
    }

    method SwitchLeaf(c: Creature, x: nat, y: nat, z: nat, leaf: QTreeNode, newLeaf: QTreeNode)
      requires TreeOk(at) && CreaturesOk(at, placed) && c in placed && OnMap((x, y, z))
      requires LeafOf(c.x, c.y) in at && at[LeafOf(c.x, c.y)] == leaf
      requires LeafOf(x, y) in at && at[LeafOf(x, y)] == newLeaf
      modifies this`placed, c`x, c`y, c`z
      modifies leaf`creatureList, leaf`playerList, newLeaf`creatureList, newLeaf`playerList
      ensures CreaturesOk(at, placed) && placed == old(placed)
      ensures c.x == x && c.y == y && c.z == z
    {
      if leaf != newLeaf {
        Leave(c, leaf);
        Enter(c, x, y, z, newLeaf);
      } else {
        OnlyNode(at, LeafOf(x, y));
        StayInLeaf(c, x, y, z);
      }
    }

    /** A step within a leaf. */
    method StayInLeaf(c: Creature, x: nat, y: nat, z: nat)
      requires TreeOk(at) && CreaturesOk(at, placed) && c in placed && OnMap((x, y, z))
      requires LeafOf(c.x, c.y) == LeafOf(x, y)
      modifies c`x, c`y, c`z
      ensures CreaturesOk(at, placed)
      ensures c.x == x && c.y == y && c.z == z
    {
      c.x, c.y, c.z := x, y, z;
      forall k | k in at && k.level == DEPTH
        ensures ListsOk(at[k], k, placed)
      {
        assert old(ListsOk(at[k], k, placed));
      }
    }

    lemma TileHasLeaf(p: Coordinate)
      requires Valid() && p in tiles
      ensures OnMap(p) && LeafOf(p.0, p.1) in at
    {
      assert Cell(at, p) == Entry(tiles, p);
    }
  }

  /** Within a leaf the low bits tell the cells apart. */
  lemma SameCell(p: Coordinate, q: Coordinate)
    requires OnMap(p) && OnMap(q)
    ensures p == q <==>
            && LeafOf(p.0, p.1) == LeafOf(q.0, q.1)
            && p.0 % FLOOR_SIZE == q.0 % FLOOR_SIZE && p.1 % FLOOR_SIZE == q.1 % FLOOR_SIZE && p.2 == q.2
  {
    LeafOfPlain(p.0, p.1);
    LeafOfPlain(q.0, q.1);
    assert forall v: nat :: v == FLOOR_SIZE * (v / FLOOR_SIZE) + v % FLOOR_SIZE;
  }
}
