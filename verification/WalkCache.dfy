/** A creature's cached view of which tiles around it can be walked on. It is shifted when the
    creature takes a step and only the new edges are asked of the map. */
module WalkCache {
  import opened Basics
  import opened TileFlags

  const MAX_VIEWPORT := 11
  const SIZE := 2 * MAX_VIEWPORT + 1
  const LAST := SIZE - 1

  /** The tiles of the creature's floor that let it in. */
  type World = set<Pos>

  /** The tile a cell of the cache stands for. */
  function TileOf(p: Pos, row: int, col: int): Pos { Pos(p.x + col - MAX_VIEWPORT, p.y + row - MAX_VIEWPORT) }

  predicate InWindow(p: Pos, q: Pos) { Abs(q.x - p.x) <= MAX_VIEWPORT && Abs(q.y - p.y) <= MAX_VIEWPORT }

  /** The worlds agree everywhere but at the given tiles. */
  ghost predicate SameBut(w: World, w': World, tiles: set<Pos>) {
    forall p :: p !in tiles ==> (p in w <==> p in w')
  }

  /** The tiles of a floor that let a monster in. */
  function WorldOf(tiles: map<Pos, Tile>, m: Monster): World { set p | p in tiles && LetsIn(tiles[p], m) }

  class Creature {
    var position: Pos
    const localMapCache: array2<bool>

    ghost predicate Valid()
      reads this
    {
      localMapCache.Length0 == localMapCache.Length1 == SIZE
    }

    /** The cache says of every tile in the window, except the creature's own, what the map would say. */
    ghost predicate CacheOk(w: World)
      reads this, localMapCache
      requires Valid()
    {
      forall row, col {:trigger localMapCache[row, col]} ::
          0 <= row < SIZE && 0 <= col < SIZE && TileOf(position, row, col) != position ==>
        (localMapCache[row, col] <==> TileOf(position, row, col) in w)
    }

    constructor (p: Pos)
      ensures Valid() && position == p && fresh(localMapCache)
    {
      position := p;
      localMapCache := new bool[SIZE, SIZE]((_, _) => false);
    }

    /** Asks the map about one tile, if it is in the window. */
    method UpdateTileCache(w: World, p: Pos)
      requires Valid()
      modifies localMapCache
      ensures forall row, col {:trigger localMapCache[row, col]} :: 0 <= row < SIZE && 0 <= col < SIZE ==>
                localMapCache[row, col] ==
                if TileOf(position, row, col) == p then p in w else old(localMapCache[row, col])
    {
      var dx := p.x - position.x;
      var dy := p.y - position.y;
      if Abs(dx) <= MAX_VIEWPORT && Abs(dy) <= MAX_VIEWPORT {
        localMapCache[MAX_VIEWPORT + dy, MAX_VIEWPORT + dx] := p in w;
      }
    }

    /** Asks the map about the whole window. */
    method UpdateMapCache(w: World)
      requires Valid()
      modifies localMapCache
      ensures CacheOk(w)
    {
      var y := -MAX_VIEWPORT;
      while y <= MAX_VIEWPORT
        invariant -MAX_VIEWPORT <= y <= MAX_VIEWPORT + 1
        invariant forall row, col {:trigger localMapCache[row, col]} ::
            0 <= row < MAX_VIEWPORT + y && 0 <= col < SIZE ==>
                    (localMapCache[row, col] <==> TileOf(position, row, col) in w)
      {
        var x := -MAX_VIEWPORT;
        while x <= MAX_VIEWPORT
          invariant -MAX_VIEWPORT <= x <= MAX_VIEWPORT + 1
          invariant forall row, col {:trigger localMapCache[row, col]} ::
                      0 <= row && 0 <= col < SIZE
                      && (row < MAX_VIEWPORT + y || (row == MAX_VIEWPORT + y && col < MAX_VIEWPORT + x)) ==>
                      (localMapCache[row, col] <==> TileOf(position, row, col) in w)
        {
          UpdateTileCache(w, Pos(position.x + x, position.y + y));
          x := x + 1;
        }
        y := y + 1;
      }
    }

    // ---- shifting

    /** The creature went north: every row moves down by one. */
    method ShiftSouth()
      requires Valid()
      modifies localMapCache
      ensures forall row, col {:trigger localMapCache[row, col]} :: 0 <= row < SIZE && 0 <= col < SIZE ==>
                localMapCache[row, col] == old(localMapCache[if row == 0 then 0 else row - 1, col])
    {
      var y := SIZE - 2;
      while y >= 0
        invariant -1 <= y <= SIZE - 2
        invariant forall row, col {:trigger localMapCache[row, col]} :: 0 <= row <= y + 1 && 0 <= col < SIZE ==>
                    localMapCache[row, col] == old(localMapCache[row, col])
        invariant forall row, col {:trigger localMapCache[row, col]} :: y + 1 < row < SIZE && 0 <= col < SIZE ==>
                    localMapCache[row, col] == old(localMapCache[row - 1, col])
      {
        forall x | 0 <= x < SIZE {
          localMapCache[y + 1, x] := localMapCache[y, x];
        }
        y := y - 1;
      }
    }

    /** The creature went south: every row moves up by one. */
    method ShiftNorth()
      requires Valid()
      modifies localMapCache
      ensures forall row, col {:trigger localMapCache[row, col]} :: 0 <= row < SIZE && 0 <= col < SIZE ==>
                localMapCache[row, col] == old(localMapCache[if row == LAST then LAST else row + 1, col])
    {
      var y := 0;
      while y <= SIZE - 2
        invariant 0 <= y <= SIZE - 1
        invariant forall row, col {:trigger localMapCache[row, col]} :: 0 <= row < SIZE && 0 <= col < SIZE ==>
                    localMapCache[row, col] == old(localMapCache[if row >= y then row else row + 1, col])
      {
        forall x | 0 <= x < SIZE {
          localMapCache[y, x] := localMapCache[y + 1, x];
        }
        y := y + 1;
      }
    }

    /** The creature went east: the rows from starty to endy move left by one. */
    method ShiftWest(starty: nat, endy: int)
      requires Valid() && endy < SIZE
      modifies localMapCache
      ensures forall row, col {:trigger localMapCache[row, col]} :: 0 <= row < SIZE && 0 <= col < SIZE ==>
                localMapCache[row, col] ==
                old(localMapCache[row, if starty <= row <= endy && col < LAST then col + 1 else col])
    {
      var y := starty;
      while y <= endy
        invariant starty <= y && (y <= endy + 1 || y == starty)
        invariant forall row, col {:trigger localMapCache[row, col]} :: 0 <= row < SIZE && 0 <= col < SIZE ==>
                    localMapCache[row, col] ==
                    old(localMapCache[row, if starty <= row < y && col < LAST then col + 1 else col])
      {
        var x := 0;
        while x <= SIZE - 2
          invariant 0 <= x <= SIZE - 1
          invariant forall row, col {:trigger localMapCache[row, col]} :: 0 <= row < SIZE && 0 <= col < SIZE ==>
                      localMapCache[row, col] ==
                      old(localMapCache[row, if (starty <= row < y && col < LAST) || (row == y && col < x)
                                             then col + 1 else col])
        {
          localMapCache[y, x] := localMapCache[y, x + 1];
          x := x + 1;
        }
        y := y + 1;
      }
    }

    /** The creature went west: the rows from starty to endy move right by one. */
    method ShiftEast(starty: nat, endy: int)
      requires Valid() && endy < SIZE
      modifies localMapCache
      ensures forall row, col {:trigger localMapCache[row, col]} :: 0 <= row < SIZE && 0 <= col < SIZE ==>
                localMapCache[row, col] ==
                old(localMapCache[row, if starty <= row <= endy && col > 0 then col - 1 else col])
    {
      var y := starty;
      while y <= endy
        invariant starty <= y && (y <= endy + 1 || y == starty)
        invariant forall row, col {:trigger localMapCache[row, col]} :: 0 <= row < SIZE && 0 <= col < SIZE ==>
                    localMapCache[row, col] ==
                    old(localMapCache[row, if starty <= row < y && col > 0 then col - 1 else col])
      {
        var x := SIZE - 2;
        while x >= 0
          invariant -1 <= x <= SIZE - 2
          invariant forall row, col {:trigger localMapCache[row, col]} :: 0 <= row < SIZE && 0 <= col < SIZE ==>
                      localMapCache[row, col] ==
                      old(localMapCache[row, if (starty <= row < y && col > 0) || (row == y && col > x + 1)
                                             then col - 1 else col])
        {
          localMapCache[y, x + 1] := localMapCache[y, x];
          x := x - 1;
        }
        y := y + 1;
      }
    }

    /** Asks the map about one row. */
    method UpdateRow(w: World, dy: int)
      requires Valid() && -MAX_VIEWPORT <= dy <= MAX_VIEWPORT
      modifies localMapCache
      ensures forall row, col {:trigger localMapCache[row, col]} :: 0 <= row < SIZE && 0 <= col < SIZE ==>
                localMapCache[row, col] ==
                if row == MAX_VIEWPORT + dy then TileOf(position, row, col) in w else old(localMapCache[row, col])
    {
      var x := -MAX_VIEWPORT;
      while x <= MAX_VIEWPORT
        invariant -MAX_VIEWPORT <= x <= MAX_VIEWPORT + 1
        invariant forall row, col {:trigger localMapCache[row, col]} :: 0 <= row < SIZE && 0 <= col < SIZE ==>
                    localMapCache[row, col] ==
                    if row == MAX_VIEWPORT + dy && col < MAX_VIEWPORT + x then TileOf(position, row, col) in w
                    else old(localMapCache[row, col])
      {
        UpdateTileCache(w, Pos(position.x + x, position.y + dy));
        x := x + 1;
      }
    }

    /** Asks the map about one column. */
    method UpdateColumn(w: World, dx: int)
      requires Valid() && -MAX_VIEWPORT <= dx <= MAX_VIEWPORT
      modifies localMapCache
      ensures forall row, col {:trigger localMapCache[row, col]} :: 0 <= row < SIZE && 0 <= col < SIZE ==>
                localMapCache[row, col] ==
                if col == MAX_VIEWPORT + dx then TileOf(position, row, col) in w else old(localMapCache[row, col])
    {
      var y := -MAX_VIEWPORT;
      while y <= MAX_VIEWPORT
        invariant -MAX_VIEWPORT <= y <= MAX_VIEWPORT + 1
        invariant forall row, col {:trigger localMapCache[row, col]} :: 0 <= row < SIZE && 0 <= col < SIZE ==>
                    localMapCache[row, col] ==
                    if col == MAX_VIEWPORT + dx && row < MAX_VIEWPORT + y then TileOf(position, row, col) in w
                    else old(localMapCache[row, col])
      {
        UpdateTileCache(w, Pos(position.x + dx, position.y + y));
        y := y + 1;
      }
    }

    // ---- moves

    /** Takes the creature to p, then mends the cache. w is what the map says afterwards. */
    method OnMove(p: Pos, w: World, teleport: bool, ghost w0: World)
      requires Valid()
      requires !teleport ==>
          CacheOk(w0) && SameBut(w0, w, {position, p}) && Abs(p.x - position.x) <= 1 && Abs(p.y - position.y) <= 1
      modifies this`position, localMapCache
      ensures position == p
      ensures teleport || !SouthDiagonal(old(position), p) ==> CacheOk(w)
      ensures !teleport && SouthDiagonal(old(position), p) ==>
          (CacheOk(w) <==> EdgesRepeat(w, p, p.x - old(position).x))
    {
      var oldPos := position;
      position := p;
      if teleport {
        UpdateMapCache(w);
      } else {
        Shift(oldPos, w, w0);
        if SouthDiagonal(oldPos, p) {
          EdgesDecide(oldPos, w);
        }
      }
    }

    /** After a step to the south-east or south-west the cache is right just when the edges repeat. */
    lemma EdgesDecide(oldPos: Pos, w: World)
      requires Valid() && SouthDiagonal(oldPos, position) && Abs(position.x - oldPos.x) == 1
      requires position.y == oldPos.y + 1
      requires var dx, dy := position.x - oldPos.x, position.y - oldPos.y;
        forall row, col {:trigger localMapCache[row, col]} ::
          0 <= row < SIZE && 0 <= col < SIZE && TileOf(position, row, col) != position ==>
          (localMapCache[row, col] <==> TileOf(position, row, StaleCol(dx, dy, row, col)) in w)
      ensures CacheOk(w) <==> EdgesRepeat(w, position, position.x - oldPos.x)
    {
      var dx := position.x - oldPos.x;
      forall col | 0 <= col < SIZE && col != MAX_VIEWPORT + MAX_VIEWPORT * dx
        ensures ColumnRepeats(w, position, dx, col) <==>
                (localMapCache[0, col] <==> TileOf(position, 0, col) in w)
                && (localMapCache[LAST, col] <==> TileOf(position, LAST, col) in w)
      {
      }
    }

    /** The step itself: every cell, but the creature's own, tells about its own tile or, at an edge it got wrong,
        about one beside it. */
    method Shift(oldPos: Pos, w: World, ghost w0: World)
      requires Valid() && SameBut(w0, w, {oldPos, position})
      requires Abs(position.x - oldPos.x) <= 1 && Abs(position.y - oldPos.y) <= 1
      requires forall row, col {:trigger localMapCache[row, col]} ::
                 0 <= row < SIZE && 0 <= col < SIZE && TileOf(oldPos, row, col) != oldPos ==>
                 (localMapCache[row, col] <==> TileOf(oldPos, row, col) in w0)
      modifies localMapCache
      ensures var dx, dy := position.x - oldPos.x, position.y - oldPos.y;
        forall row, col {:trigger localMapCache[row, col]} ::
          0 <= row < SIZE && 0 <= col < SIZE && TileOf(position, row, col) != position ==>
          (localMapCache[row, col] <==> TileOf(position, row, StaleCol(dx, dy, row, col)) in w)
    {
      ghost var dx, dy := position.x - oldPos.x, position.y - oldPos.y;
      ShiftRows(oldPos, w);
      forall row, col | 0 <= row < SIZE && 0 <= col < SIZE && TileOf(oldPos, row + dy, col) != oldPos
        ensures localMapCache[row, col] <==> ToldByRows(position, oldPos, w, w0, row, col)
      {
        if dy == 1 && row < LAST {
          assert localMapCache[row, col] == old(localMapCache[row + 1, col]);
        } else if dy == -1 && row > 0 {
          assert localMapCache[row, col] == old(localMapCache[row - 1, col]);
        }
      }
      ShiftAcross(oldPos, w, w0);
    }

    method ShiftAcross(oldPos: Pos, w: World, ghost w0: World)
      requires Valid() && SameBut(w0, w, {oldPos, position})
      requires Abs(position.x - oldPos.x) <= 1 && Abs(position.y - oldPos.y) <= 1
      requires forall row, col {:trigger localMapCache[row, col]} ::
                 0 <= row < SIZE && 0 <= col < SIZE && TileOf(oldPos, row + position.y - oldPos.y, col) != oldPos ==>
                 (localMapCache[row, col] <==> ToldByRows(position, oldPos, w, w0, row, col))
      modifies localMapCache
      ensures var dx, dy := position.x - oldPos.x, position.y - oldPos.y;
        forall row, col {:trigger localMapCache[row, col]} ::
          0 <= row < SIZE && 0 <= col < SIZE && TileOf(position, row, col) != position ==>
          (localMapCache[row, col] <==> TileOf(position, row, StaleCol(dx, dy, row, col)) in w)
    {
      ghost var dx, dy := position.x - oldPos.x, position.y - oldPos.y;
      ShiftFrom(oldPos, w);
      forall row, col | 0 <= row < SIZE && 0 <= col < SIZE && TileOf(position, row, col) != position
        ensures localMapCache[row, col] <==> TileOf(position, row, StaleCol(dx, dy, row, col)) in w
      {
        if TileOf(position, row, col) != oldPos && (dx == 0 || col != MAX_VIEWPORT + MAX_VIEWPORT * dx) {
          var c := FromCol(dx, dy, row, col);
          assert localMapCache[row, col] == old(localMapCache[row, c]);
          ToldAcross(position, oldPos, w, w0, row, col, c);
        }
      }
    }

    /** The column shift and the tile left, cell by cell. */
    method ShiftFrom(oldPos: Pos, w: World)
      requires Valid() && Abs(position.x - oldPos.x) <= 1
      modifies localMapCache
      ensures var dx, dy := position.x - oldPos.x, position.y - oldPos.y;
        forall row, col {:trigger localMapCache[row, col]} :: 0 <= row < SIZE && 0 <= col < SIZE ==>
          localMapCache[row, col] ==
            if TileOf(position, row, col) == oldPos then oldPos in w
            else if dx != 0 && col == MAX_VIEWPORT + MAX_VIEWPORT * dx then TileOf(position, row, col) in w
            else old(localMapCache[row, FromCol(dx, dy, row, col)])
    {
      ShiftColumns(oldPos, w);
      ghost var dx, dy := position.x - oldPos.x, position.y - oldPos.y;
      forall row, col | 0 <= row < SIZE && 0 <= col < SIZE
        ensures localMapCache[row, col] == if dx != 0 && col == MAX_VIEWPORT + MAX_VIEWPORT * dx then
          TileOf(position, row, col) in w else old(localMapCache[row, FromCol(dx, dy, row, col)])
      {
        assert dx == -1 || dx == 0 || dx == 1;
      }
      UpdateTileCache(w, oldPos);
    }

    /** The row shift and refill. */
    method ShiftRows(oldPos: Pos, w: World)
      requires Valid()
      modifies localMapCache
      ensures forall row, col {:trigger localMapCache[row, col]} :: 0 <= row < SIZE && 0 <= col < SIZE ==>
                localMapCache[row, col] ==
                if oldPos.y > position.y then
                  (if row == 0 then TileOf(position, row, col) in w else old(localMapCache[row - 1, col]))
                else if oldPos.y < position.y then
                  (if row == LAST then TileOf(position, row, col) in w else old(localMapCache[row + 1, col]))
                else old(localMapCache[row, col])
    {
      if oldPos.y > position.y {
        ShiftSouth();
        UpdateRow(w, -MAX_VIEWPORT);
      } else if oldPos.y < position.y {
        ShiftNorth();
        UpdateRow(w, MAX_VIEWPORT);
      }
    }

    /** The column shift and refill; after a step along both axes row 0 is left out. */
    method ShiftColumns(oldPos: Pos, w: World)
      requires Valid()
      modifies localMapCache
      ensures forall row, col {:trigger localMapCache[row, col]} :: 0 <= row < SIZE && 0 <= col < SIZE ==>
                localMapCache[row, col] ==
                if oldPos.x < position.x then
                  (if col == LAST then TileOf(position, row, col) in w
                   else if row < Abs(oldPos.y - position.y) then old(localMapCache[row, col])
                   else old(localMapCache[row, col + 1]))
                else if oldPos.x > position.x then
                  (if col == 0 then TileOf(position, row, col) in w
                   else if row < Abs(oldPos.y - position.y) then old(localMapCache[row, col])
                   else old(localMapCache[row, col - 1]))
                else old(localMapCache[row, col])
    {
      var starty, endy := 0, SIZE - 1;
      var dy := Abs(oldPos.y - position.y);
      if dy < 0 {
        endy := endy + dy;
      } else if dy > 0 {
        starty := dy;
      }
      if oldPos.x < position.x {
        ShiftWest(starty, endy);
        UpdateColumn(w, MAX_VIEWPORT);
      } else if oldPos.x > position.x {
        ShiftEast(starty, endy);
        UpdateColumn(w, -MAX_VIEWPORT);
      }
    }

    /** Another creature came, went or moved, on the given tiles of this floor. */
    method OnCreatures(tiles: seq<Pos>, w: World, ghost w0: World)
      requires Valid() && CacheOk(w0) && SameBut(w0, w, set p | p in tiles)
      modifies localMapCache
      ensures CacheOk(w)
    {
      for i := 0 to |tiles|
        invariant forall row, col {:trigger localMapCache[row, col]} :: 0 <= row < SIZE && 0 <= col < SIZE ==>
                    localMapCache[row, col] ==
                    if TileOf(position, row, col) in tiles[..i] then TileOf(position, row, col) in w
                    else old(localMapCache[row, col])
      {
        UpdateTileCache(w, tiles[i]);
      }
    }

    /** The cache has a cell for p that is asked for. */
    predicate Watches(p: Pos)
      reads this`position
    {
      InWindow(position, p) && p != position
    }

    /** Nothing was asked of the map: the cache is right just when the one tile that changed lets in whom it did
        before. */
    lemma RightIfSame(p: Pos, w: World, w0: World)
      requires Valid() && CacheOk(w0) && SameBut(w0, w, {p})
      ensures CacheOk(w) <==> !Watches(p) || (p in w0 <==> p in w)
    {
      if Watches(p) {
        var row, col := p.y - position.y + MAX_VIEWPORT, p.x - position.x + MAX_VIEWPORT;
        assert TileOf(position, row, col) == p && (localMapCache[row, col] <==> p in w0);
      }
    }

    method OnAddTileItem(p: Pos, w: World, ghost w0: World)
      requires Valid() && CacheOk(w0) && SameBut(w0, w, {p})
      modifies localMapCache
      ensures CacheOk(w)
    {
      UpdateTileCache(w, p);
    }

    method OnUpdateTileItem(p: Pos, oldType: ItemType, newType: ItemType, w: World, ghost w0: World)
      requires Valid() && CacheOk(w0) && SameBut(w0, w, {p})
      modifies localMapCache
      ensures CacheOk(w) <==> SeesUpdate(oldType, newType) || !Watches(p) || (p in w0 <==> p in w)
    {
      if oldType.blockSolid || oldType.blockPathFind || newType.blockPathFind || newType.blockSolid {
        UpdateTileCache(w, p);
      } else {
        RightIfSame(p, w, w0);
      }
    }

    method OnRemoveTileItem(p: Pos, kind: ItemType, w: World, ghost w0: World)
      requires Valid() && CacheOk(w0) && SameBut(w0, w, {p})
      modifies localMapCache
      ensures CacheOk(w) <==> SeesRemoval(kind) || !Watches(p) || (p in w0 <==> p in w)
    {
      if kind.blockSolid || kind.blockPathFind || kind.ground {
        UpdateTileCache(w, p);
      } else {
        RightIfSame(p, w, w0);
      }
    }

    /** An item of a tile changes, and the creature hears of it. Its cache stays right exactly if it takes notice, or
        need not, because something is in the way anyway or the tile is as inviting as it was. */
    method TileItemChanges(tiles: map<Pos, Tile>, p: Pos, place: Place, x: TileItem, m: Monster)
      returns (tiles': map<Pos, Tile>)
      requires Valid() && p in tiles && Has(tiles[p], place) && CacheOk(WorldOf(tiles, m))
      modifies localMapCache
      ensures tiles' == tiles[p := Update(tiles[p], place, x)]
      ensures CacheOk(WorldOf(tiles', m)) <==>
              || SeesUpdate(ItemAt(tiles[p], place).kind, x.kind) || !Watches(p)
              || (Accessible(tiles[p], m) ==> (Inviting(tiles[p], m) <==> Inviting(tiles'[p], m)))
    {
      tiles' := tiles[p := Update(tiles[p], place, x)];
      if !SeesUpdate(ItemAt(tiles[p], place).kind, x.kind) {
        UnseenUpdate(tiles[p], place, x, m);
      }
      OnUpdateTileItem(p, ItemAt(tiles[p], place).kind, x.kind, WorldOf(tiles', m), WorldOf(tiles, m));
    }

    /** An item of a tile goes. */
    method TileItemGoes(tiles: map<Pos, Tile>, p: Pos, place: Place, m: Monster) returns (tiles': map<Pos, Tile>)
      requires Valid() && p in tiles && Has(tiles[p], place) && CacheOk(WorldOf(tiles, m))
      modifies localMapCache
      ensures tiles' == tiles[p := Remove(tiles[p], place)]
      ensures CacheOk(WorldOf(tiles', m)) <==>
              || SeesRemoval(ItemAt(tiles[p], place).kind) || !Watches(p)
              || (Accessible(tiles[p], m) ==>
                  if place.Ground? then !Inviting(tiles[p], m) else (Inviting(tiles[p], m) <==> Inviting(tiles'[p], m)))
    {
      tiles' := tiles[p := Remove(tiles[p], place)];
      if !SeesRemoval(ItemAt(tiles[p], place).kind) {
        UnseenRemoval(tiles[p], place, m);
      }
      OnRemoveTileItem(p, ItemAt(tiles[p], place).kind, WorldOf(tiles', m), WorldOf(tiles, m));
    }

    /** 0: blocked, 1: free, 2: not in the cache. */
    method GetWalkCache(p: Pos, useCacheMap: bool) returns (r: int)
      requires Valid()
      ensures r == if !useCacheMap then 2 else if p == position then 1
                   else if !InWindow(position, p) then 2
                   else if localMapCache[p.y - position.y + MAX_VIEWPORT, p.x - position.x + MAX_VIEWPORT] then 1 else 0
    {
      if !useCacheMap {
        return 2;
      }
      if p == position {
        return 1;
      }
      var dx := p.x - position.x;
      if Abs(dx) <= MAX_VIEWPORT {
        var dy := p.y - position.y;
        if Abs(dy) <= MAX_VIEWPORT {
          return if localMapCache[MAX_VIEWPORT + dy, MAX_VIEWPORT + dx] then 1 else 0;
        }
      }
      return 2;
    }

    /** Whether the path search may enter p. With or without the cache the answer is the same. */
    method CanWalkTo(p: Pos, w: World, useCacheMap: bool) returns (free: bool)
      requires Valid() && (useCacheMap ==> CacheOk(w))
      ensures free <==> p == position || p in w
    {
      var walkCache := GetWalkCache(p, useCacheMap);
      assert InWindow(position, p) ==>
          p == TileOf(position, p.y - position.y + MAX_VIEWPORT, p.x - position.x + MAX_VIEWPORT);
      if walkCache == 0 {
        return false;
      } else if walkCache == 1 {
        return true;
      }
      return p == position || p in w;
    }
  }

  predicate SouthDiagonal(p: Pos, q: Pos) { p.y < q.y && p.x != q.x }

  /** Which column of the new window a cell tells about after the shift: its own, but for the first and the last row
      after a diagonal step to the south. */
  function StaleCol(dx: int, dy: int, row: int, col: int): int {
    if dy <= 0 || dx == 0 || col == MAX_VIEWPORT + MAX_VIEWPORT * dx then col
    else if row == 0 then col - dx
    else if row == LAST then col + dx
    else col
  }

  /** The column that the column shift takes a cell from. */
  function FromCol(dx: int, dy: int, row: int, col: int): int {
    if row < Abs(dy) then col else col + dx
  }

  /** What a cell tells after the rows were shifted: about the tile it told about before, or, if its row was asked
      of the map, about its tile in the new window. */
  ghost predicate ToldByRows(p: Pos, oldPos: Pos, w: World, w0: World, row: int, col: int) {
    var dy := p.y - oldPos.y;
    if dy != 0 && row == MAX_VIEWPORT + MAX_VIEWPORT * dy then TileOf(p, row, col) in w
    else TileOf(oldPos, row + dy, col) in w0
  }

  /** Taken from column c, it tells about the tile the column shift leaves in the cell. */
  lemma ToldAcross(p: Pos, oldPos: Pos, w: World, w0: World, row: int, col: int, c: int)
    requires SameBut(w0, w, {oldPos, p}) && Abs(p.x - oldPos.x) <= 1 && Abs(p.y - oldPos.y) <= 1
    requires 0 <= row < SIZE && 0 <= col < SIZE && 0 <= c < SIZE
    requires p.x == oldPos.x || col != MAX_VIEWPORT + MAX_VIEWPORT * (p.x - oldPos.x)
    requires TileOf(p, row, col) != p && TileOf(p, row, col) != oldPos
    requires c == if row < Abs(p.y - oldPos.y) then col else col + p.x - oldPos.x
    ensures TileOf(oldPos, row + p.y - oldPos.y, c) != oldPos
    ensures ToldByRows(p, oldPos, w, w0, row, c) <==>
            TileOf(p, row, StaleCol(p.x - oldPos.x, p.y - oldPos.y, row, col)) in w
  {
    var dx, dy := p.x - oldPos.x, p.y - oldPos.y;
    assert TileOf(oldPos, row + dy, c) == TileOf(p, row, c - dx);
  }

  /** The top row of the window at p repeats itself dx columns to the left, the bottom row dx columns to the right,
      but for the column that was asked of the map. */
  ghost predicate EdgesRepeat(w: World, p: Pos, dx: int) {
    forall col {:trigger ColumnRepeats(w, p, dx, col)} ::
      0 <= col < SIZE && col != MAX_VIEWPORT + MAX_VIEWPORT * dx ==> ColumnRepeats(w, p, dx, col)
  }

  ghost predicate ColumnRepeats(w: World, p: Pos, dx: int, col: int) {
    && (TileOf(p, 0, col) in w <==> TileOf(p, 0, col - dx) in w)
    && (TileOf(p, LAST, col) in w <==> TileOf(p, LAST, col + dx) in w)
  }

  /** So no step to the south-east or south-west keeps the cache right in every world. */
  lemma SouthDiagonalLosesTheEdge(p: Pos, dx: int) returns (w: World)
    requires dx == 1 || dx == -1
    ensures !EdgesRepeat(w, p, dx)
  {
    w := {TileOf(p, 0, MAX_VIEWPORT)};
    assert TileOf(p, 0, MAX_VIEWPORT) in w && TileOf(p, 0, MAX_VIEWPORT - dx) !in w;
    assert !ColumnRepeats(w, p, dx, MAX_VIEWPORT);
  }
}
