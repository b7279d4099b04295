/** From where a target is approached: what the range of the goal test means, and what the search makes of it. */
module PathApproach {
  import opened Basics
  import opened PathWorld
  import opened PathPlain
  import opened PathSearch

  // ---- the range

  /** With a full search the range is all that is near enough. */
  lemma FullRange(w: World, fpp: FindPathParams, p: Pos)
    requires fpp.fullPathSearch
    ensures IsInRange(w, fpp, p) <==> TargetDist(w, p) <= fpp.maxTargetDist
  {
  }

  /** On one axis, p does not lie beyond the target from the start. */
  predicate OnSide(start: int, target: int, p: int) { (p - target) * (start - target) >= 0 }

  lemma SideIs(start: int, target: int, p: int)
    ensures OnSide(start, target, p) <==> (start > target ==> p >= target) && (start < target ==> p <= target)
  {
    if start > target && p < target {
      assert (target - p) * (start - target) > 0;
      assert (p - target) * (start - target) == -((target - p) * (start - target));
    }
    if start < target && p > target {
      assert (p - target) * (target - start) > 0;
      assert (p - target) * (start - target) == -((p - target) * (target - start));
    }
    if start < target && p <= target {
      assert (p - target) * (start - target) == (target - p) * (target - start);
    }
  }

  /** With a partial search it is the part of that which does not lie beyond the target on either axis. */
  lemma PartialRange(w: World, fpp: FindPathParams, p: Pos)
    requires !fpp.fullPathSearch
    ensures IsInRange(w, fpp, p) <==>
      && IsInRange(w, fpp.(fullPathSearch := true), p)
      && OnSide(w.start.x, w.target.x, p.x) && OnSide(w.start.y, w.target.y, p.y)
  {
    SideIs(w.start.x, w.target.x, p.x);
    SideIs(w.start.y, w.target.y, p.y);
  }

  function Mirrored(p: Pos, c: int, inX: bool): Pos {
    if inX then Pos(c - p.x, p.y) else Pos(p.x, c - p.y)
  }

  /** In a mirror the range is the mirrored one. */
  lemma RangeInMirror(w: World, w': World, fpp: FindPathParams, c: int, inX: bool, p: Pos)
    requires w'.start == Mirrored(w.start, c, inX) && w'.target == Mirrored(w.target, c, inX)
    ensures IsInRange(w', fpp, Mirrored(p, c, inX)) <==> IsInRange(w, fpp, p)
  {
    var (fpp', p') := (fpp.(fullPathSearch := true), Mirrored(p, c, inX));
    FullRange(w, fpp', p);
    FullRange(w', fpp', p');
    if !fpp.fullPathSearch {
      PartialRange(w, fpp, p);
      PartialRange(w', fpp, p');
      SideIs(w.start.x, w.target.x, p.x);
      SideIs(w'.start.x, w'.target.x, p'.x);
      SideIs(w.start.y, w.target.y, p.y);
      SideIs(w'.start.y, w'.target.y, p'.y);
    }
  }

  /** What a search may go over: tiles the creature can walk on, no farther from its start than the search distance on
      either axis, and in range all the way if the distance to the target is to be kept. */
  lemma WalksStay(w: World, fpp: FindPathParams, path: seq<Pos>, k: nat)
    requires Walk(w, fpp, path) && 0 < k < |path|
    ensures path[k] in w.walkable
    ensures fpp.maxSearchDist > 0 ==>
      && w.start.x - fpp.maxSearchDist <= path[k].x <= w.start.x + fpp.maxSearchDist
      && w.start.y - fpp.maxSearchDist <= path[k].y <= w.start.y + fpp.maxSearchDist
    ensures fpp.keepDistance && fpp.fullPathSearch ==> TargetDist(w, path[k]) <= fpp.maxTargetDist
    ensures fpp.keepDistance && !fpp.fullPathSearch ==>
      OnSide(w.start.x, w.target.x, path[k].x) && OnSide(w.start.y, w.target.y, path[k].y)
  {
    if fpp.fullPathSearch {
      FullRange(w, fpp, path[k]);
    } else {
      PartialRange(w, fpp, path[k]);
    }
  }

  // ---- straight on

  /** The tile beside the target in a straight direction. */
  function Beside(w: World, side: Direction): Pos {
    Pos(w.target.x + Offset(side).0, w.target.y + Offset(side).1)
  }

  /** A search for a tile beside the target, of which the creature is so many steps away in a straight direction. */
  predicate Straight(w: World, fpp: FindPathParams, side: Direction, steps: nat) {
    && side in {North, East, South, West}
    && w.start == Pos(w.target.x + (steps + 1) * Offset(side).0, w.target.y + (steps + 1) * Offset(side).1)
    && fpp.minTargetDist == 1 && fpp.maxTargetDist == 1 && !fpp.clearSight && !fpp.fullPathSearch
  }

  /** The corners of the straight way. */
  function First(p: Pos, q: Pos): Pos { Pos(Min(p.x, q.x), Min(p.y, q.y)) }

  function Last(p: Pos, q: Pos): Pos { Pos(Max(p.x, q.x), Max(p.y, q.y)) }

  /** The tile on the creature's side matches, and any other that does is farther away. */
  lemma BesideIsNearest(w: World, fpp: FindPathParams, side: Direction, steps: nat, p: Pos)
    requires Straight(w, fpp, side, steps)
    ensures Perfect(w, fpp, Beside(w, side)) && Steps(w, Beside(w, side)) == steps
    ensures Perfect(w, fpp, p) && p != Beside(w, side) ==> Steps(w, p) > steps
  {
    PartialRange(w, fpp, p);
    SideIs(w.start.x, w.target.x, p.x);
    SideIs(w.start.y, w.target.y, p.y);
  }

  /** From every side, with the straight way free and within the search distance, the search goes it, and no farther:
      to the tile between the creature and its target. */
  method GoesStraight(w: World, fpp: FindPathParams, side: Direction, steps: nat)
    returns (ok: bool, dirs: seq<Direction>)
    requires Bounded(w) && Straight(w, fpp, side, steps) && 1 <= fpp.maxSearchDist <= 10
    requires Plain(w, fpp, First(w.start, Beside(w, side)), Last(w.start, Beside(w, side)))
    ensures ok && Walk(w, fpp, Replay(w.start, dirs)) && Replay(w.start, dirs)[|dirs|] == Beside(w, side)
    ensures WalkCost(w, Replay(w.start, dirs)) == 10 * steps
  {
    ghost var bestMatch, how;
    ok, dirs, bestMatch, how := GetPathMatching(w, fpp);
    BesideIsNearest(w, fpp, side, steps, w.start);
    ghost var straight :=
      PlainIsReached(w, fpp, First(w.start, Beside(w, side)), Last(w.start, Beside(w, side)), Beside(w, side));
    assert ReachesMatch(w, fpp, straight);
    ghost var path := Replay(w.start, dirs);
    BesideIsNearest(w, fpp, side, steps, path[|path|-1]);
    CostAtLeast(w, fpp, path);
  }
}
