/** Walks where nothing is in the way, and what any walk costs at least. */
module PathPlain {
  import opened Basics
  import opened PathWorld

  /** The straight steps from the start to p. */
  function Steps(w: World, p: Pos): nat { DistanceX(w.start, p) + DistanceY(w.start, p) }

  lemma {:induction false} WalkExtends(w: World, fpp: FindPathParams, path: seq<Pos>, q: Pos)
    requires Walk(w, fpp, path) && Admitted(w, fpp, q) && Edge(w, fpp, path[|path|-1], q)
    ensures Walk(w, fpp, path + [q])
    ensures WalkCost(w, path + [q]) == WalkCost(w, path) + MoveCost(w, path[|path|-1], q)
  {
    assert (path + [q])[..|path|] == path;
  }

  lemma StepIsShort(w: World, fpp: FindPathParams, p: Pos, q: Pos)
    requires Edge(w, fpp, p, q)
    ensures MoveCost(w, p, q) >= 10 * (Steps(w, q) - Steps(w, p)) + TileWalkCost(w, q)
  {
  }

  /** No walk costs less than its straight steps, and the tile it ends on. */
  lemma {:induction false} CostAtLeast(w: World, fpp: FindPathParams, path: seq<Pos>)
    requires Walk(w, fpp, path)
    ensures WalkCost(w, path) >= 10 * Steps(w, path[|path|-1])
    ensures |path| > 1 ==> WalkCost(w, path) >= 10 * Steps(w, path[|path|-1]) + TileWalkCost(w, path[|path|-1])
    decreases |path|
  {
    if |path| > 1 {
      var n := |path| - 1;
      assert Edge(w, fpp, path[n-1], path[n]);
      CostAtLeast(w, fpp, path[..n]);
      StepIsShort(w, fpp, path[n-1], path[n]);
    }
  }

  /** Between the corners a and b nothing is in the way. */
  ghost predicate Plain(w: World, fpp: FindPathParams, a: Pos, b: Pos) {
    && Between(a, w.start, b)
    && forall p {:trigger Between(a, p, b)} :: Between(a, p, b) ==>
        Admitted(w, fpp, p) && p !in w.occupied && p !in w.burning
  }

  predicate Between(a: Pos, p: Pos, b: Pos) { a.x <= p.x <= b.x && a.y <= p.y <= b.y }

  /** One straight step nearer to the start. */
  function Nearer(w: World, p: Pos): Pos {
    if p.x > w.start.x then Pos(p.x - 1, p.y)
    else if p.x < w.start.x then Pos(p.x + 1, p.y)
    else if p.y > w.start.y then Pos(p.x, p.y - 1)
    else Pos(p.x, p.y + 1)
  }

  /** There straight steps are all that is needed. */
  lemma {:induction false} PlainIsReached(w: World, fpp: FindPathParams, a: Pos, b: Pos, p: Pos)
    returns (path: seq<Pos>)
    requires Plain(w, fpp, a, b) && Between(a, p, b)
    ensures Walk(w, fpp, path) && path[|path|-1] == p && WalkCost(w, path) == 10 * Steps(w, p)
    decreases Steps(w, p)
  {
    if p == w.start {
      path := [p];
    } else {
      var q := Nearer(w, p);
      assert Between(a, q, b);
      path := PlainIsReached(w, fpp, a, b, q);
      WalkExtends(w, fpp, path, p);
      path := path + [p];
    }
  }
}
