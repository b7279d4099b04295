/** Where the path search falls short: with its nodes used up the way it finds can be dearer than another,
    and with its rounds over it finds none where there is one. */
module PathExamples {
  import opened Basics
  import opened PathWorld
  import opened AStarNodes
  import opened PathLimits
  import opened PathPlain
  import opened PathSearch

  lemma PlainIsWithin(w: World, fpp: FindPathParams, a: Pos, b: Pos, c: int, p: Pos)
    requires Plain(w, fpp, a, b) && Between(a, p, b) && 10 * Steps(w, p) <= c + 10
    ensures Within(w, fpp, c, p)
  {
    if p != w.start {
      var q := Nearer(w, p);
      assert Between(a, q, b);
      var path := PlainIsReached(w, fpp, a, b, q);
      assert Reached(w, fpp, c, q) && Edge(w, fpp, q, p);
    }
  }

  // ---- the nodes used up

  const EXPENSIVE := Pos(1100, 1050)
  const CHEAP := Pos(1100, 1068)
  const CORNER := Pos(1077, 1039)
  const OPPOSITE := Pos(1099, 1068)

  /** A field to the west of a wall with two gaps, both as far from the target as wanted: the near one harmful and
      occupied, the other not. */
  function Field(): World {
    World(Pos(1090, 1050), Pos(1000, 1000),
          (set x, y | 1077 <= x <= 1099 && 1039 <= y <= 1068 :: Pos(x, y)) + {EXPENSIVE, CHEAP},
          {EXPENSIVE}, {EXPENSIVE}, {})
  }

  /** A search for a tile 100 away from the target, and at least not on it, no farther than so many tiles. */
  predicate Wanted(fpp: FindPathParams) {
    && !fpp.fullPathSearch && !fpp.clearSight && !fpp.keepDistance
    && fpp.maxSearchDist >= 18 && fpp.minTargetDist == 1 && fpp.maxTargetDist == 100
  }

  lemma FieldIsPlain(fpp: FindPathParams)
    requires Wanted(fpp)
    ensures Bounded(Field()) && Plain(Field(), fpp, CORNER, OPPOSITE)
    ensures forall p :: p in Field().walkable <==> Between(CORNER, p, OPPOSITE) || p == EXPENSIVE || p == CHEAP
  {
    forall p
      ensures p in Field().walkable <==> Between(CORNER, p, OPPOSITE) || p == EXPENSIVE || p == CHEAP
    {
      if Between(CORNER, p, OPPOSITE) {
        assert p == Pos(p.x, p.y);
      }
    }
  }

  /** Only the gaps match perfectly; the start already matches a little. */
  lemma GapsArePerfect(fpp: FindPathParams, p: Pos)
    requires Wanted(fpp)
    ensures Partial(Field(), fpp, Field().start)
    ensures Perfect(Field(), fpp, EXPENSIVE) && Perfect(Field(), fpp, CHEAP)
    ensures p in Field().walkable && Perfect(Field(), fpp, p) ==> p == EXPENSIVE || p == CHEAP
  {
    FieldIsPlain(fpp);
  }

  lemma RowsAndColumns(j: nat, k: nat)
    requires j != k
    ensures j % 23 != k % 23 || j / 23 != k / 23
  {
  }

  /** At a cost of 230 there are 529 tiles to keep nodes for. */
  lemma FieldIsCrowded(fpp: FindPathParams, c: int)
    requires Wanted(fpp) && c >= 230
    ensures Crowded(Field(), fpp, c)
  {
    var w := Field();
    FieldIsPlain(fpp);
    var tiles := seq(529, k requires 0 <= k < 529 => Pos(1077 + k % 23, 1039 + k / 23));
    forall j, k | 0 <= j < k < 529
      ensures tiles[j] != tiles[k]
    {
      RowsAndColumns(j, k);
    }
    forall p | p in tiles
      ensures Within(w, fpp, c, p)
    {
      var k :| 0 <= k < 529 && tiles[k] == p;
      assert 0 <= k % 23 < 23 && 0 <= k / 23 < 23;
      PlainIsWithin(w, fpp, CORNER, OPPOSITE, c, p);
    }
  }

  /** At a cost of 90 only 441 at most. */
  lemma FieldIsNotCrowded(fpp: FindPathParams, c: int)
    requires c <= 90
    ensures !Crowded(Field(), fpp, c)
  {
    var w := Field();
    if Crowded(w, fpp, c) {
      var tiles: seq<Pos> :| |tiles| > MAX_NODES && Distinct(tiles) && forall p :: p in tiles ==> Within(w, fpp, c, p);
      forall k | 0 <= k < |tiles|
        ensures 1080 <= tiles[k].x <= 1100 && 1040 <= tiles[k].y <= 1060
      {
        assert tiles[k] in tiles;
        IsWithinSteps(w, fpp, c, tiles[k]);
      }
      var codes := seq(|tiles|, k requires 0 <= k < |tiles| => 21 * (tiles[k].x - 1080) + (tiles[k].y - 1040));
      DistinctBound(codes, 441);
    }
  }

  lemma IsWithinSteps(w: World, fpp: FindPathParams, c: int, q: Pos)
    requires Within(w, fpp, c, q)
    ensures q == w.start || exists p :: Edge(w, fpp, p, q) && 10 * Steps(w, p) <= c
  {
    if q != w.start {
      var p :| Reached(w, fpp, c, p) && Edge(w, fpp, p, q);
      var path :| Walk(w, fpp, path) && path[|path|-1] == p && WalkCost(w, path) <= c;
      CostAtLeast(w, fpp, path);
    }
  }

  /** The ways through the gaps. */
  lemma WaysThrough(fpp: FindPathParams)
    requires Wanted(fpp)
    ensures exists path :: Walk(Field(), fpp, path) && path[|path|-1] == CHEAP && WalkCost(Field(), path) == 280
    ensures forall c :: c >= 90 ==> Within(Field(), fpp, c, EXPENSIVE)
    ensures forall c :: c <= 230 ==> !Within(Field(), fpp, c, CHEAP)
  {
    var w := Field();
    FieldIsPlain(fpp);
    var path := PlainIsReached(w, fpp, CORNER, OPPOSITE, Pos(1099, 1068));
    WalkExtends(w, fpp, path, CHEAP);
    assert (path + [CHEAP])[|path|] == CHEAP;
    var near := PlainIsReached(w, fpp, CORNER, OPPOSITE, Pos(1099, 1050));
    forall c | c >= 90
      ensures Within(w, fpp, c, EXPENSIVE)
    {
      assert Reached(w, fpp, c, Pos(1099, 1050)) && Edge(w, fpp, Pos(1099, 1050), EXPENSIVE);
    }
    forall c | c <= 230
      ensures !Within(w, fpp, c, CHEAP)
    {
      if Within(w, fpp, c, CHEAP) {
        IsWithinSteps(w, fpp, c, CHEAP);
      }
    }
  }

  /** Whatever the search distance, from 18 on, the search goes through the near gap, which costs more. */
  lemma {:induction false} UsedUpIsNotLeast(fpp: FindPathParams, ok: bool, dirs: seq<Direction>, bestMatch: int,
                                            how: End)
    requires Wanted(fpp) && PathAnswer(Field(), fpp, ok, dirs, bestMatch, how)
    ensures Bounded(Field())
    ensures ok && bestMatch == 0 && how.UsedUp?
    ensures !LeastCost(Field(), fpp, bestMatch, WalkCost(Field(), Replay(Field().start, dirs)))
  {
    var w := Field();
    FieldIsPlain(fpp);
    FieldIsUsedUp(fpp, ok, dirs, bestMatch, how);
    var path := Replay(w.start, dirs);
    var p := path[|path|-1];
    LevelOfField(fpp, how.level);
    NearGapIsFound(fpp, ok, p, bestMatch, how.level);
    CostAtLeast(w, fpp, path);
    FarGapIsCheaper(fpp, WalkCost(w, path));
  }

  lemma LevelOfField(fpp: FindPathParams, level: int)
    requires Wanted(fpp) && Crowded(Field(), fpp, level) && !Crowded(Field(), fpp, level - 1)
    ensures 90 < level <= 230
  {
    if level > 230 {
      FieldIsCrowded(fpp, level - 1);
    }
    if level <= 90 {
      FieldIsNotCrowded(fpp, level);
    }
  }

  lemma NearGapIsFound(fpp: FindPathParams, ok: bool, p: Pos, bestMatch: int, level: int)
    requires Wanted(fpp) && UsedUpAnswer(Field(), fpp, ok, p, bestMatch, level) && 90 < level <= 230
    requires if ok then Matches(Field(), fpp, p, bestMatch) && (bestMatch == 0 ==> p in Field().walkable)
        else bestMatch == 0
    ensures ok && bestMatch == 0 && p == EXPENSIVE
  {
    var w := Field();
    GapsArePerfect(fpp, p);
    WaysThrough(fpp);
    assert Walk(w, fpp, [w.start]) && WalkCost(w, [w.start]) == 0;
    assert !NotBetter(w, fpp, w.start, 0);
    assert Within(w, fpp, level - 1, EXPENSIVE);
    assert !NotBetter(w, fpp, EXPENSIVE, bestMatch);
  }

  lemma FarGapIsCheaper(fpp: FindPathParams, c: int)
    requires Wanted(fpp) && c > 280
    ensures !LeastCost(Field(), fpp, 0, c)
  {
    var w := Field();
    WaysThrough(fpp);
    GapsArePerfect(fpp, CHEAP);
    var path :| Walk(w, fpp, path) && path[|path|-1] == CHEAP && WalkCost(w, path) == 280;
    assert Matches(w, fpp, path[|path|-1], 0);
  }

  lemma FieldIsUsedUp(fpp: FindPathParams, ok: bool, dirs: seq<Direction>, bestMatch: int, how: End)
    requires Wanted(fpp) && PathAnswer(Field(), fpp, ok, dirs, bestMatch, how)
    ensures how.UsedUp?
  {
    var w := Field();
    FieldIsPlain(fpp);
    FieldIsCrowded(fpp, 230);
    forall path | Walk(w, fpp, path) && Perfect(w, fpp, path[|path|-1])
      ensures 231 <= WalkCost(w, path)
    {
      GapsArePerfect(fpp, path[|path|-1]);
      CostAtLeast(w, fpp, path);
    }
    assert PerfectCosts(w, fpp, 230 + 1);
    WhenUsedUp(w, fpp, ok, dirs, bestMatch, how);
  }

  // ---- the rounds over

  /** A passage of 200 tiles, to a target 150 away. */
  function Passage(): World {
    World(Pos(1000, 1000), Pos(1150, 1000), set x | 1000 <= x <= 1199 :: Pos(x, 1000), {}, {}, {})
  }

  /** A search for a tile beside the target, without a search distance. */
  predicate Beside(fpp: FindPathParams) {
    && !fpp.clearSight && !fpp.keepDistance
    && fpp.maxSearchDist == 0 && fpp.minTargetDist <= 1 && fpp.maxTargetDist == 1
  }

  lemma PassageIsPlain(fpp: FindPathParams)
    requires Beside(fpp)
    ensures Plain(Passage(), fpp, Pos(1000, 1000), Pos(1199, 1000))
  {
    forall p | Between(Pos(1000, 1000), p, Pos(1199, 1000))
      ensures Admitted(Passage(), fpp, p)
    {
      assert p == Pos(p.x, 1000);
    }
  }

  lemma PassageIsReached(fpp: FindPathParams, k: nat)
    requires Beside(fpp) && k < 100
    ensures Reached(Passage(), fpp, 990, Pos(1000 + k, 1000))
  {
    PassageIsPlain(fpp);
    var path := PlainIsReached(Passage(), fpp, Pos(1000, 1000), Pos(1199, 1000), Pos(1000 + k, 1000));
  }

  lemma PassageIsLengthy(fpp: FindPathParams)
    requires Beside(fpp)
    ensures Lengthy(Passage(), fpp, 990)
  {
    var tiles := seq(100, k requires 0 <= k < 100 => Pos(1000 + k, 1000));
    forall p | p in tiles
      ensures Reached(Passage(), fpp, 990, p)
    {
      PassageIsReached(fpp, p.x - 1000);
    }
    assert |tiles| >= MAX_ROUNDS && Distinct(tiles);
  }

  /** No path is found, though there is one. */
  lemma StoppedMissesTheTarget(fpp: FindPathParams, ok: bool, dirs: seq<Direction>, bestMatch: int, how: End)
    requires Beside(fpp) && PathAnswer(Passage(), fpp, ok, dirs, bestMatch, how)
    ensures Bounded(Passage()) && !ok && exists path :: ReachesMatch(Passage(), fpp, path)
  {
    var w := Passage();
    PassageIsPlain(fpp);
    PassageIsLengthy(fpp);
    forall path | Walk(w, fpp, path) && Perfect(w, fpp, path[|path|-1])
      ensures 991 <= WalkCost(w, path)
    {
      CostAtLeast(w, fpp, path);
    }
    assert PerfectCosts(w, fpp, 990 + 1);
    WhenStopped(w, fpp, ok, dirs, bestMatch, how);
    var path := PlainIsReached(w, fpp, Pos(1000, 1000), Pos(1199, 1000), Pos(1149, 1000));
    assert ReachesMatch(w, fpp, path);
  }
}
