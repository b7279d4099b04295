/** The path search itself: a least-cost search over the node pool that stops at a match. */
module PathSearch {
  import opened Basics
  import opened PathWorld
  import opened AStarNodes
  import opened PathInvariant
  import opened PathLimits

  /** What the search answers for a final bestMatch: a perfect match, or the best partial one. */
  ghost predicate Matches(w: World, fpp: FindPathParams, p: Pos, bestMatch: int) {
    if bestMatch == 0 then Perfect(w, fpp, p)
    else Partial(w, fpp, p) && TargetDist(w, p) == bestMatch
  }

  /** No walk to a tile that matches equally well costs less than c. */
  ghost predicate LeastCost(w: World, fpp: FindPathParams, bestMatch: int, c: int) {
    forall path :: Walk(w, fpp, path) && Matches(w, fpp, path[|path|-1], bestMatch) ==> c <= WalkCost(w, path)
  }

  /** No walk at all ends at a better match: none is perfect, none lies farther from the target. */
  ghost predicate NoBetterMatch(w: World, fpp: FindPathParams, bestMatch: int) {
    forall path :: Walk(w, fpp, path) ==>
      var p := path[|path|-1];
      !Perfect(w, fpp, p) && (Partial(w, fpp, p) ==> TargetDist(w, p) <= bestMatch)
  }

  /** The neighbours the search tries from node n. */
  function Neighbors(fpp: FindPathParams, s: Pool, n: nat): seq<(int, int)>
    requires n < |s.nodes| && s.nodes[n].parent < |s.nodes|
  {
    if s.nodes[n].parent >= 0 then
      PrunedNeighbors(s.nodes[s.nodes[n].parent].pos, s.nodes[n].pos, fpp.allowDiagonal)
    else AllNeighbors()
  }

  function Difference(q: Pos, p: Pos): (int, int) { (q.x - p.x, q.y - p.y) }

  /** Everything the neighbour table of a node leaves out is taken care of by the parent. */
  lemma SkippedAreRelaxed(w: World, fpp: FindPathParams, s: Pool, n: nat, q: Pos)
    requires Tree(w, fpp, s) && AllRelaxed(w, fpp, s) && n < |s.nodes| && s.nodes[n].parent < |s.nodes|
    requires n > 0 ==> LinkOk(w, fpp, s, n) && !s.open[s.nodes[n].parent]
    requires Edge(w, fpp, s.nodes[n].pos, q)
    requires Difference(q, s.nodes[n].pos) !in Neighbors(fpp, s, n)
    ensures RelaxedTo(w, fpp, s, n, q)
  {
    if n > 0 {
      assert Relaxed(w, fpp, s, s.nodes[n].parent);
      PrunedIsRelaxed(w, fpp, s, n, q);
    } else {
      AllNeighborsAreAll(w, fpp, s.nodes[n].pos, q);
    }
  }

  /** Every neighbour tried is one the creature may go to, and its coordinates do not wrap. */
  lemma TriedAreEdges(w: World, fpp: FindPathParams, s: Pool, n: nat, k: nat)
    requires Tree(w, fpp, s) && Bounded(w) && n < |s.nodes| && s.nodes[n].parent < |s.nodes|
    requires n > 0 ==> LinkOk(w, fpp, s, n)
    requires k < |Neighbors(fpp, s, n)|
    ensures var p := s.nodes[n].pos; var q := Step(p, Neighbors(fpp, s, n)[k]);
      Edge(w, fpp, p, q) && Difference(q, p) == Neighbors(fpp, s, n)[k]
  {
    var o := Neighbors(fpp, s, n)[k];
    assert -1 <= o.0 <= 1 && -1 <= o.1 <= 1 && o != (0, 0) && (n > 0 && !fpp.allowDiagonal ==> o.0 == 0 || o.1 == 0);
  }

  /** What trying neighbour q of node n does to the pool, and whether a node was wanting. */
  ghost function TryNeighbor(w: World, fpp: FindPathParams, s: Pool, n: nat, q: Pos): (r: (Pool, bool))
    requires s.Shaped() && n < |s.nodes| && (q in s.table ==> s.table[q] < |s.nodes|)
    ensures r.0.Shaped()
  {
    var newf := s.nodes[n].f + MoveCost(w, s.nodes[n].pos, q);
    if !WithinSearch(w, fpp, q) then (s, false)
    else if q in s.table then
      (if s.nodes[s.table[q]].f <= newf then s else s.Reparent(s.table[q], n, newf).Reopen(s.table[q]), false)
    else if q !in w.walkable then (s, false)
    else if |s.nodes| < MAX_NODES then (s.Append(n, q, newf), false)
    else (s, true)
  }

  /** What a round of the neighbour loop keeps, and what it brings. */
  ghost predicate TriedWell(w: World, fpp: FindPathParams, s: Pool, n: nat, q: Pos, t: Pool, full: bool)
    requires s.Shaped() && n < |s.nodes|
  {
    && Expanding(w, fpp, t, n)
    && Grows(s, t)
    && t.nodes[n] == s.nodes[n]
    && |t.nodes| <= |s.nodes| + 1
    && if full then Overfull(w, fpp, t, n) else RelaxedTo(w, fpp, t, n, q)
  }

  /** There is no node left for a neighbour of n that needs one. */
  ghost predicate Overfull(w: World, fpp: FindPathParams, s: Pool, n: nat)
    requires s.Shaped() && n < |s.nodes|
  {
    |s.nodes| == MAX_NODES && exists q :: q !in s.table && Admitted(w, fpp, q) && Edge(w, fpp, s.nodes[n].pos, q)
  }

  lemma TryKnown(w: World, fpp: FindPathParams, s: Pool, n: nat, q: Pos)
    requires Expanding(w, fpp, s, n) && Edge(w, fpp, s.nodes[n].pos, q)
    requires q in s.table && s.table[q] < |s.nodes| && WithinSearch(w, fpp, q)
    ensures TriedWell(w, fpp, s, n, q, TryNeighbor(w, fpp, s, n, q).0, false)
  {
    var v := s.table[q];
    assert s.nodes[v].pos == q;
    if s.nodes[n].f + MoveCost(w, s.nodes[n].pos, q) < s.nodes[v].f {
      ImproveKeeps(w, fpp, s, n, v);
    }
  }

  lemma TryUnknown(w: World, fpp: FindPathParams, s: Pool, n: nat, q: Pos)
    requires Expanding(w, fpp, s, n) && Edge(w, fpp, s.nodes[n].pos, q)
    requires q !in s.table && Admitted(w, fpp, q)
    ensures var (t, full) := TryNeighbor(w, fpp, s, n, q); TriedWell(w, fpp, s, n, q, t, full)
  {
    if |s.nodes| < MAX_NODES {
      AppendKeeps(w, fpp, s, n, q);
    }
  }

  lemma TryKeeps(w: World, fpp: FindPathParams, s: Pool, n: nat, q: Pos)
    requires Expanding(w, fpp, s, n) && Edge(w, fpp, s.nodes[n].pos, q)
    requires q in s.table ==> s.table[q] < |s.nodes|
    ensures var (t, full) := TryNeighbor(w, fpp, s, n, q); TriedWell(w, fpp, s, n, q, t, full)
  {
    if !WithinSearch(w, fpp, q) || (q !in s.table && q !in w.walkable) {
      assert Grows(s, s);
    } else if q in s.table {
      TryKnown(w, fpp, s, n, q);
    } else {
      TryUnknown(w, fpp, s, n, q);
    }
  }

  /** One round of the neighbour loop. */
  method Try(w: World, fpp: FindPathParams, pool: NodePool, n: nat, f: int, q: Pos) returns (full: bool)
    requires pool.Valid() && n < |pool.View().nodes| && f == pool.View().nodes[n].f
    modifies pool, pool.nodes, pool.openNodes
    ensures pool.Valid()
    ensures (pool.View(), full) == TryNeighbor(w, fpp, old(pool.View()), n, q)
  {
    if fpp.maxSearchDist != 0 {
      if DistanceX(w.start, q) > fpp.maxSearchDist || DistanceY(w.start, q) > fpp.maxSearchDist {
        return false;
      }
    }
    if fpp.keepDistance && !IsInRange(w, fpp, q) {
      return false;
    }
    var neighborNode := pool.GetNodeByPosition(q);
    if neighborNode == -1 && q !in w.walkable {
      return false;
    }
    var newf := f + MoveCost(w, pool.nodes[n].pos, q);
    if neighborNode != -1 {
      if pool.nodes[neighborNode].f <= newf {
        return false;
      }
      pool.Improve(neighborNode, n, newf);
    } else {
      neighborNode := pool.CreateOpenNode(n, q, newf);
      if neighborNode == -1 {
        return true;
      }
    }
    full := false;
  }

  /** s, when node n was expanded as far as the k-th neighbour, has become t. */
  ghost predicate Expanded(w: World, fpp: FindPathParams, s: Pool, t: Pool, n: nat, k: nat)
    requires s.Shaped() && n < |s.nodes| && s.nodes[n].parent < |s.nodes| && k <= |Neighbors(fpp, s, n)|
  {
    && Expanding(w, fpp, t, n)
    && Grows(s, t)
    && t.nodes[n] == s.nodes[n]
    && |t.nodes| <= |s.nodes| + k
    && forall i :: 0 <= i < k ==> RelaxedTo(w, fpp, t, n, Step(s.nodes[n].pos, Neighbors(fpp, s, n)[i]))
  }

  lemma ExpandedStep(w: World, fpp: FindPathParams, s: Pool, t: Pool, n: nat, k: nat)
    requires Bounded(w) && Expanding(w, fpp, s, n) && s.nodes[n].parent < |s.nodes|
    requires n > 0 ==> LinkOk(w, fpp, s, n)
    requires k < |Neighbors(fpp, s, n)| && Expanded(w, fpp, s, t, n, k)
    ensures var q := Step(s.nodes[n].pos, Neighbors(fpp, s, n)[k]);
      && (q in t.table ==> t.table[q] < |t.nodes|)
      && var (u, full) := TryNeighbor(w, fpp, t, n, q);
      && Expanding(w, fpp, u, n) && Grows(s, u) && u.nodes[n] == s.nodes[n]
      && |u.nodes| <= |s.nodes| + |Neighbors(fpp, s, n)|
      && (if full then Overfull(w, fpp, u, n) else Expanded(w, fpp, s, u, n, k + 1))
  {
    var q := Step(s.nodes[n].pos, Neighbors(fpp, s, n)[k]);
    TriedAreEdges(w, fpp, s, n, k);
    TryKeeps(w, fpp, t, n, q);
    var (u, full) := TryNeighbor(w, fpp, t, n, q);
    GrowsTransitive(s, t, u);
    forall i | 0 <= i < k
      ensures RelaxedTo(w, fpp, u, n, Step(s.nodes[n].pos, Neighbors(fpp, s, n)[i]))
    {
      GrowsKeepsRelaxedTo(w, fpp, t, u, n, Step(s.nodes[n].pos, Neighbors(fpp, s, n)[i]));
    }
  }

  lemma ExpandedToTheEnd(w: World, fpp: FindPathParams, s: Pool, t: Pool, n: nat)
    requires Bounded(w) && Expanding(w, fpp, s, n) && AllRelaxed(w, fpp, s) && s.nodes[n].parent < |s.nodes|
    requires n > 0 ==> LinkOk(w, fpp, s, n) && !s.open[s.nodes[n].parent]
    requires Expanded(w, fpp, s, t, n, |Neighbors(fpp, s, n)|)
    ensures AllRelaxed(w, fpp, t) && Relaxed(w, fpp, t, n)
  {
    GrowsKeepsRelaxed(w, fpp, s, t);
    var p := s.nodes[n].pos;
    var neighbors := Neighbors(fpp, s, n);
    forall q | Edge(w, fpp, p, q)
      ensures RelaxedTo(w, fpp, t, n, q)
    {
      if k :| 0 <= k < |neighbors| && neighbors[k] == Difference(q, p) {
        TriedAreEdges(w, fpp, s, n, k);
        assert q == Step(p, neighbors[k]);
      } else {
        SkippedAreRelaxed(w, fpp, s, n, q);
        GrowsKeepsRelaxedTo(w, fpp, s, t, n, q);
      }
    }
  }

  /** Expands node n: tries its neighbours one by one. Answers true when the pool is used up. */
  method Expand(w: World, fpp: FindPathParams, pool: NodePool, n: nat, ghost s: Pool)
    returns (full: bool, ghost t: Pool)
    requires Bounded(w) && pool.Valid() && s == pool.View() && Expanding(w, fpp, s, n) && s.nodes[n].parent < |s.nodes|
    requires n > 0 ==> LinkOk(w, fpp, s, n) && !s.open[s.nodes[n].parent]
    modifies pool, pool.nodes, pool.openNodes
    ensures pool.Valid() && t == pool.View() && Expanding(w, fpp, t, n) && Grows(s, t) && t.nodes[n] == s.nodes[n]
    ensures |t.nodes| <= |s.nodes| + |Neighbors(fpp, s, n)|
    ensures full ==> Overfull(w, fpp, t, n)
    ensures AllRelaxed(w, fpp, s) && !full ==> AllRelaxed(w, fpp, t) && Relaxed(w, fpp, t, n)
  {
    var p := pool.nodes[n].pos;
    var f := pool.nodes[n].f;
    var neighbors :=
      if pool.nodes[n].parent >= 0 then
        PrunedNeighbors(pool.nodes[pool.nodes[n].parent].pos, p, fpp.allowDiagonal)
      else AllNeighbors();
    t := s;
    var i := 0;
    while i < |neighbors|
      invariant 0 <= i <= |neighbors|
      invariant pool.Valid() && t == pool.View() && Expanded(w, fpp, s, t, n, i)
    {
      ExpandedStep(w, fpp, s, t, n, i);
      full := Try(w, fpp, pool, n, f, Step(p, neighbors[i]));
      t := pool.View();
      if full {
        return;
      }
      i := i + 1;
    }
    full := false;
    if AllRelaxed(w, fpp, s) {
      ExpandedToTheEnd(w, fpp, s, t, n);
    }
  }

  // ---- reading the directions off the parents

  function StepDirection(dx: int, dy: int): Direction {
    if dx == 1 && dy == 1 then NorthWest
    else if dx == -1 && dy == 1 then NorthEast
    else if dx == 1 && dy == -1 then SouthWest
    else if dx == -1 && dy == -1 then SouthEast
    else if dx == 1 then West
    else if dx == -1 then East
    else if dy == 1 then North
    else South
  }

  lemma {:induction false} ReplayFirst(p: Pos, d: Direction, dirs: seq<Direction>)
    ensures Replay(p, [d] + dirs) == [p] + Replay(Step(p, Offset(d)), dirs)
  {
    assert ([d] + dirs)[1..] == dirs;
  }

  /** The direction from a parent to its child leads there. */
  lemma ParentDirection(w: World, fpp: FindPathParams, p: Pos, q: Pos)
    requires Bounded(w) && Edge(w, fpp, p, q) && Admitted(w, fpp, q)
    ensures Step(p, Offset(StepDirection(p.x - q.x, p.y - q.y))) == q
  {
  }

  /** A step towards the start moves one position from the tree path to the replayed one. */
  lemma {:induction false} TreePathStep(w: World, fpp: FindPathParams, s: Pool, child: nat, d: Direction,
                                        dirs: seq<Direction>)
    requires Tree(w, fpp, s) && 0 < child < |s.nodes| && LinkOk(w, fpp, s, child)
    requires Step(s.nodes[s.nodes[child].parent].pos, Offset(d)) == s.nodes[child].pos
    ensures TreePath(w, fpp, s, child) + Replay(s.nodes[child].pos, dirs)[1..]
         == TreePath(w, fpp, s, s.nodes[child].parent) + Replay(s.nodes[s.nodes[child].parent].pos, [d] + dirs)[1..]
  {
    var node := s.nodes[child].parent;
    var q := s.nodes[child].pos;
    var rest := Replay(q, dirs);
    ReplayFirst(s.nodes[node].pos, d, dirs);
    assert TreePath(w, fpp, s, child) == TreePath(w, fpp, s, node) + [q];
    assert rest == [q] + rest[1..];
    Joined(TreePath(w, fpp, s, node), q, rest[1..]);
  }

  lemma Joined(path: seq<Pos>, q: Pos, rest: seq<Pos>)
    ensures path + [q] + rest == path + ([q] + rest)
  {
  }

  /** The node and its parent hang together. */
  ghost predicate Linked(w: World, fpp: FindPathParams, s: Pool, child: int)
    requires s.Shaped()
  {
    && 0 <= child < |s.nodes|
    && if child == 0 then s.nodes[0] == Node(-1, w.start, 0) else LinkOk(w, fpp, s, child)
  }

  lemma AllLinked(w: World, fpp: FindPathParams, s: Pool, i: nat)
    requires Tree(w, fpp, s) && i < |s.nodes|
    ensures Linked(w, fpp, s, i)
  {
    assert i > 0 ==> LinkOk(w, fpp, s, i);
  }

  /** Walks from the found node to the start and pushes each direction in front. */
  method ReadDirections(w: World, fpp: FindPathParams, pool: NodePool, found: nat, ghost s: Pool)
    returns (dirs: seq<Direction>)
    requires Bounded(w) && pool.Valid() && s == pool.View() && Tree(w, fpp, s) && found < |s.nodes|
    ensures Replay(w.start, dirs) == TreePath(w, fpp, s, found)
  {
    dirs := [];
    var prev := pool.nodes[found].pos;
    var node := pool.nodes[found].parent;
    ghost var child := found;
    AllLinked(w, fpp, s, found);
    while node != -1
      invariant Linked(w, fpp, s, child) && prev == s.nodes[child].pos && node == s.nodes[child].parent
      invariant TreePath(w, fpp, s, found) == TreePath(w, fpp, s, child) + Replay(prev, dirs)[1..]
      decreases s.nodes[child].f
    {
      var p := pool.nodes[node].pos;
      var d := StepDirection(p.x - prev.x, p.y - prev.y);
      ParentDirection(w, fpp, p, prev);
      TreePathStep(w, fpp, s, child, d, dirs);
      AllLinked(w, fpp, s, node);
      dirs := [d] + dirs;
      prev := p;
      child := node;
      node := pool.nodes[node].parent;
    }
    assert [w.start] + Replay(w.start, dirs)[1..] == Replay(w.start, dirs);
  }

  // ---- when the pool cannot be used up

  /** With a search distance of at most 10 there are too few positions to use up the pool. */
  lemma SmallSearchFits(w: World, fpp: FindPathParams, s: Pool)
    requires Tree(w, fpp, s) && fpp.maxSearchDist != 0 && fpp.maxSearchDist <= 10
    ensures |s.nodes| < MAX_NODES
  {
    forall i | 0 <= i < |s.nodes|
      ensures -10 <= s.nodes[i].pos.x - w.start.x <= 10 && -10 <= s.nodes[i].pos.y - w.start.y <= 10
    {
      assert i > 0 ==> LinkOk(w, fpp, s, i);
    }
    var codes := seq(|s.nodes|, i requires 0 <= i < |s.nodes| =>
      21 * (s.nodes[i].pos.x - w.start.x + 10) + (s.nodes[i].pos.y - w.start.y + 10));
    forall i, j | 0 <= i < j < |codes|
      ensures codes[i] != codes[j]
    {
      assert s.nodes[i].pos != s.nodes[j].pos;
    }
    DistinctBound(codes, 441);
  }

  /** Each round takes no more nodes than there are neighbours to try: eight at first, then five. */
  ghost predicate Sized(s: Pool)
    requires s.Shaped()
  {
    if s.closedNodes == 0 then |s.nodes| == 1
    else |s.nodes| > 0 && !s.open[0] && |s.nodes| <= 4 + 5 * s.closedNodes
  }

  lemma SizedStep(w: World, fpp: FindPathParams, s: Pool, t: Pool, n: nat)
    requires Expanding(w, fpp, s, n) && Expanding(w, fpp, t, n) && Grows(s, t) && Sized(s)
    requires s.nodes[n].parent < |s.nodes|
    requires |t.nodes| <= |s.nodes| + |Neighbors(fpp, s, n)|
    ensures Sized(t.Close(n)) && |t.nodes| <= 9 + 5 * s.closedNodes
  {
    ClosedCountBound(s.open);
    assert n > 0 ==> LinkOk(w, fpp, s, n);
  }

  // ---- the search

  /** How a search ends: with all it could want; with its nodes used up, first at a cost level;
      or at one, when its rounds are over. */
  datatype End = Complete | UsedUp(level: int) | Stopped(level: int)

  /** The nodes are used up: at that level, and no sooner. */
  ghost predicate FullOk(w: World, fpp: FindPathParams, s: Pool, level: int)
    requires s.Shaped()
  {
    && |s.nodes| == MAX_NODES && fpp.maxSearchDist > 10
    && Crowded(w, fpp, level) && !Crowded(w, fpp, level - 1)
    && HasAll(w, fpp, s, level - 1) && SettledBelow(w, fpp, s, level - 1)
    && forall i :: 0 <= i < |s.nodes| ==> Within(w, fpp, level, s.nodes[i].pos)
  }

  /** Either every neighbour of a closed node has a node, or the nodes are used up. */
  ghost predicate RoomOk(w: World, fpp: FindPathParams, s: Pool, room: End)
    requires s.Shaped()
  {
    !room.Stopped? && if room.UsedUp? then FullOk(w, fpp, s, room.level) else AllRelaxed(w, fpp, s)
  }

  /** No closed node is better than bestMatch says. */
  ghost predicate Seen(w: World, fpp: FindPathParams, s: Pool, bestMatch: int)
    requires s.Shaped()
  {
    forall i {:trigger SeenAt(w, fpp, s, bestMatch, i)} :: 0 <= i < |s.nodes| ==> SeenAt(w, fpp, s, bestMatch, i)
  }

  ghost predicate SeenAt(w: World, fpp: FindPathParams, s: Pool, bestMatch: int, i: int)
    requires s.Shaped() && 0 <= i < |s.nodes|
  {
    !s.open[i] ==> NotBetter(w, fpp, s.nodes[i].pos, bestMatch)
  }

  ghost predicate NotBetter(w: World, fpp: FindPathParams, p: Pos, bestMatch: int) {
    !Perfect(w, fpp, p) && (Partial(w, fpp, p) ==> TargetDist(w, p) <= bestMatch)
  }

  /** The found node is as good as bestMatch says, and the cheapest such one. */
  ghost predicate FoundOk(w: World, fpp: FindPathParams, s: Pool, found: int, bestMatch: int, room: End)
    requires s.Shaped()
  {
    && 0 <= found < |s.nodes|
    && Matches(w, fpp, s.nodes[found].pos, bestMatch)
    && (!room.UsedUp? ==> LeastCost(w, fpp, bestMatch, s.nodes[found].f))
  }

  lemma ClosedIsNotBetter(w: World, fpp: FindPathParams, s: Pool, p: Pos, c: int, bestMatch: int)
    requires Tree(w, fpp, s) && Seen(w, fpp, s, bestMatch) && ClosedWithin(s, p, c)
    ensures NotBetter(w, fpp, p, bestMatch)
  {
    assert s.nodes[s.table[p]].pos == p && SeenAt(w, fpp, s, bestMatch, s.table[p]);
  }

  /** A node that improves on bestMatch when it is picked is the cheapest of its kind. */
  lemma PickedIsLeast(w: World, fpp: FindPathParams, s: Pool, n: nat, bestMatch: int, newMatch: int)
    requires Expanding(w, fpp, s, n) && AllRelaxed(w, fpp, s) && Seen(w, fpp, s, bestMatch) && 0 <= bestMatch
    requires newMatch == 0 || bestMatch < newMatch
    ensures LeastCost(w, fpp, newMatch, s.nodes[n].f)
  {
    forall path | Walk(w, fpp, path) && Matches(w, fpp, path[|path|-1], newMatch)
      ensures s.nodes[n].f <= WalkCost(w, path)
    {
      SelectedIsLeast(w, fpp, s, n, path);
      var p := path[|path|-1];
      if ClosedWithin(s, p, WalkCost(w, path)) {
        ClosedIsNotBetter(w, fpp, s, p, WalkCost(w, path), bestMatch);
      }
    }
  }

  /** When no node is open any more, every walk ends at a closed node. */
  lemma NothingOpen(w: World, fpp: FindPathParams, s: Pool, bestMatch: int)
    requires Tree(w, fpp, s) && AllRelaxed(w, fpp, s) && Seen(w, fpp, s, bestMatch)
    requires forall i :: 0 <= i < |s.nodes| ==> !s.open[i]
    ensures NoBetterMatch(w, fpp, bestMatch)
  {
    forall path | Walk(w, fpp, path)
      ensures NotBetter(w, fpp, path[|path|-1], bestMatch)
    {
      FrontierCuts(w, fpp, s, path);
      ClosedIsNotBetter(w, fpp, s, path[|path|-1], WalkCost(w, path), bestMatch);
    }
  }

  lemma GrowsKeepsFound(w: World, fpp: FindPathParams, s: Pool, t: Pool, found: int, bestMatch: int, room: End)
    requires s.Shaped() && t.Shaped() && FoundOk(w, fpp, s, found, bestMatch, room)
    requires found < |t.nodes| && t.nodes[found] == s.nodes[found]
    ensures FoundOk(w, fpp, t, found, bestMatch, room)
  {
  }

  /** The best match so far, closed or just picked, is not a perfect one; without one the nodes are not used up. */
  ghost predicate BestSoFar(w: World, fpp: FindPathParams, s: Pool, n: int, found: int, bestMatch: int, room: End)
    requires s.Shaped()
  {
    if found == -1 then bestMatch == 0 && !room.UsedUp?
    else
      && bestMatch > 0 && fpp.maxTargetDist != 1 && FoundOk(w, fpp, s, found, bestMatch, room)
      && (found == n || !s.open[found])
  }

  lemma BestStep(w: World, fpp: FindPathParams, s: Pool, t: Pool, u: Pool, n: nat, found: int, bestMatch: int,
                 room: End, room': End)
    requires s.Shaped() && t.Shaped() && Grows(s, t) && n < |s.nodes| && t.nodes[n] == s.nodes[n] && u == t.Close(n)
    requires BestSoFar(w, fpp, s, n, found, bestMatch, room)
    requires room' == room || (room'.UsedUp? && found != -1)
    ensures BestSoFar(w, fpp, u, -1, found, bestMatch, room')
  {
    if found != -1 {
      GrowsKeepsFound(w, fpp, s, u, found, bestMatch, room);
    }
  }

  /** What holds between two rounds of the search. */
  ghost predicate SearchInv(w: World, fpp: FindPathParams, s: Pool, level: int, found: int, bestMatch: int, room: End) {
    && Tree(w, fpp, s)
    && Frontier(s, -1, level)
    && BestSoFar(w, fpp, s, -1, found, bestMatch, room)
    && Seen(w, fpp, s, bestMatch) && RoomOk(w, fpp, s, room) && Sized(s)
  }

  /** What holds when node n was picked and tested. */
  ghost predicate PickInv(w: World, fpp: FindPathParams, s: Pool, n: int, found: int, bestMatch: int, oldMatch: int,
                          room: End) {
    && Expanding(w, fpp, s, n)
    && 0 <= oldMatch <= bestMatch
    && NotBetter(w, fpp, s.nodes[n].pos, bestMatch)
    && BestSoFar(w, fpp, s, n, found, bestMatch, room)
    && Seen(w, fpp, s, oldMatch) && RoomOk(w, fpp, s, room) && Sized(s)
  }

  lemma Pick(w: World, fpp: FindPathParams, s: Pool, level: int, n: nat, found: int, bestMatch: int, room: End)
    requires SearchInv(w, fpp, s, level, found, bestMatch, room)
    requires Expanding(w, fpp, s, n)
    ensures var (matches, newMatch) := PathCondition(w, fpp, s.nodes[n].pos, bestMatch);
      if matches && newMatch == 0 then FoundOk(w, fpp, s, n, 0, room)
      else PickInv(w, fpp, s, n, if matches then n else found, newMatch, bestMatch, room)
  {
    var (matches, newMatch) := PathCondition(w, fpp, s.nodes[n].pos, bestMatch);
    if matches {
      if !room.UsedUp? {
        PickedIsLeast(w, fpp, s, n, bestMatch, newMatch);
      }
      assert FoundOk(w, fpp, s, n, newMatch, room);
    }
  }

  /** Whether there is room after node n was expanded; once there is none, there is none for good. */
  function RoomAfter(room: End, full: bool, level: int): End {
    if full && !room.UsedUp? then UsedUp(level) else room
  }

  /** The nodes are used up while node n is expanded. */
  lemma BecomesFull(w: World, fpp: FindPathParams, s: Pool, t: Pool, n: nat)
    requires Expanding(w, fpp, s, n) && AllRelaxed(w, fpp, s) && Sized(s) && s.nodes[n].parent < |s.nodes|
    requires Expanding(w, fpp, t, n) && Grows(s, t) && t.nodes[n] == s.nodes[n] && Overfull(w, fpp, t, n)
    requires |t.nodes| <= |s.nodes| + |Neighbors(fpp, s, n)|
    requires fpp.maxSearchDist == 0 ==> s.closedNodes < MAX_ROUNDS
    ensures FullOk(w, fpp, t, s.nodes[n].f)
  {
    var level := s.nodes[n].f;
    SizedStep(w, fpp, s, t, n);
    if fpp.maxSearchDist != 0 && fpp.maxSearchDist <= 10 {
      SmallSearchFits(w, fpp, t);
    }
    var q :| q !in t.table && Admitted(w, fpp, q) && Edge(w, fpp, t.nodes[n].pos, q);
    PoolIsCrowded(w, fpp, t, n, q);
    forall i | 0 <= i < |s.nodes| && s.open[i]
      ensures level - 1 < s.nodes[i].f
    {
      assert FrontierAt(s, n, level, i);
    }
    CheapIsSettled(w, fpp, s, level - 1);
    SettledIsNotCrowded(w, fpp, s, level - 1);
    GrowsKeepsSettled(w, fpp, s, t, level - 1);
    forall i | 0 <= i < |t.nodes|
      ensures Within(w, fpp, level, t.nodes[i].pos)
    {
      NodesAreWithin(w, fpp, t, n, i);
    }
  }

  lemma GrowsKeepsSettled(w: World, fpp: FindPathParams, s: Pool, t: Pool, c: int)
    requires s.Shaped() && t.Shaped() && Grows(s, t) && SettledBelow(w, fpp, s, c) && HasAll(w, fpp, s, c)
    ensures SettledBelow(w, fpp, t, c) && HasAll(w, fpp, t, c)
  {
    forall p | Reached(w, fpp, c, p)
      ensures p in t.table && t.table[p] < |t.nodes| && !t.open[t.table[p]]
    {
      assert t.table[p] == s.table[p];
    }
  }

  lemma RoomStep(w: World, fpp: FindPathParams, s: Pool, t: Pool, n: nat, room: End, full: bool)
    requires Expanding(w, fpp, s, n) && RoomOk(w, fpp, s, room) && Sized(s) && s.nodes[n].parent < |s.nodes|
    requires Expanding(w, fpp, t, n) && Grows(s, t) && t.nodes[n] == s.nodes[n]
    requires |t.nodes| <= |s.nodes| + |Neighbors(fpp, s, n)|
    requires fpp.maxSearchDist == 0 ==> s.closedNodes < MAX_ROUNDS
    requires full ==> Overfull(w, fpp, t, n)
    requires AllRelaxed(w, fpp, s) && !full ==> AllRelaxed(w, fpp, t) && Relaxed(w, fpp, t, n)
    ensures RoomOk(w, fpp, t, RoomAfter(room, full, s.nodes[n].f))
    ensures RoomOk(w, fpp, t.Close(n), RoomAfter(room, full, s.nodes[n].f))
  {
    if room.UsedUp? {
      GrowsKeepsFull(w, fpp, s, t, room.level);
      CloseKeepsFull(w, fpp, t, n, room.level);
    } else if full {
      BecomesFull(w, fpp, s, t, n);
      CloseKeepsFull(w, fpp, t, n, s.nodes[n].f);
    } else {
      CloseKeeps(w, fpp, t, n);
    }
  }

  lemma GrowsKeepsFull(w: World, fpp: FindPathParams, s: Pool, t: Pool, level: int)
    requires s.Shaped() && t.Shaped() && Grows(s, t) && FullOk(w, fpp, s, level)
    ensures FullOk(w, fpp, t, level)
  {
    GrowsKeepsSettled(w, fpp, s, t, level - 1);
    assert forall i :: 0 <= i < |t.nodes| ==> t.nodes[i].pos == s.nodes[i].pos;
  }

  lemma CloseKeepsFull(w: World, fpp: FindPathParams, t: Pool, n: nat, level: int)
    requires Expanding(w, fpp, t, n) && FullOk(w, fpp, t, level)
    ensures FullOk(w, fpp, t.Close(n), level)
  {
    forall p | Reached(w, fpp, level - 1, p)
      ensures !t.Close(n).open[t.table[p]]
    {
    }
  }

  lemma EndRound(w: World, fpp: FindPathParams, s: Pool, t: Pool, u: Pool, n: nat, found: int, bestMatch: int,
                 oldMatch: int, room: End, room': End)
    requires PickInv(w, fpp, s, n, found, bestMatch, oldMatch, room) && s.nodes[n].parent < |s.nodes|
    requires Expanding(w, fpp, t, n) && Grows(s, t) && t.nodes[n] == s.nodes[n] && u == t.Close(n)
    requires RoomOk(w, fpp, u, room') && (room' == room || (room'.UsedUp? && found != -1))
    requires |t.nodes| <= |s.nodes| + |Neighbors(fpp, s, n)|
    ensures SearchInv(w, fpp, u, s.nodes[n].f, found, bestMatch, room')
    ensures s.closedNodes < u.closedNodes <= MAX_NODES
  {
    CloseKeeps(w, fpp, t, n);
    ClosedCountBound(u.open);
    SizedStep(w, fpp, s, t, n);
    BestStep(w, fpp, s, t, u, n, found, bestMatch, room, room');
    SeenStep(w, fpp, s, t, n, oldMatch, bestMatch);
  }

  lemma SeenStep(w: World, fpp: FindPathParams, s: Pool, t: Pool, n: nat, oldMatch: int, bestMatch: int)
    requires s.Shaped() && t.Shaped() && Grows(s, t) && n < |s.nodes| && t.nodes[n] == s.nodes[n]
    requires Seen(w, fpp, s, oldMatch) && oldMatch <= bestMatch && NotBetter(w, fpp, s.nodes[n].pos, bestMatch)
    ensures Seen(w, fpp, t.Close(n), bestMatch)
  {
    var u := t.Close(n);
    forall i | 0 <= i < |u.nodes|
      ensures SeenAt(w, fpp, u, bestMatch, i)
    {
      assert i < |s.nodes| ==> SeenAt(w, fpp, s, oldMatch, i);
    }
  }

  // ---- how a search ends

  /** Tiles that cost less than c do not match better; they may match as well as others that match perfectly. */
  ghost predicate CheaperIsWorse(w: World, fpp: FindPathParams, c: int, bestMatch: int, perfect: bool) {
    forall path {:trigger Walk(w, fpp, path)} :: Walk(w, fpp, path) && WalkCost(w, path) < c ==>
      var p := path[|path|-1]; if perfect then !Perfect(w, fpp, p) else NotBetter(w, fpp, p, bestMatch)
  }

  /** What an answer says, by how the search ended: a match at p that costs c, or that there is none. */
  ghost predicate Answer(w: World, fpp: FindPathParams, ok: bool, p: Pos, c: int, bestMatch: int, how: End) {
    var perfect := ok && bestMatch == 0;
    && (if ok then Matches(w, fpp, p, bestMatch) else bestMatch == 0)
    && (ok && !how.UsedUp? ==> LeastCost(w, fpp, bestMatch, c))
    && (how.Complete? ==> CompleteAnswer(w, fpp, perfect, c, bestMatch))
    && (how.UsedUp? ==> UsedUpAnswer(w, fpp, ok, p, bestMatch, how.level))
    && (how.Stopped? ==> StoppedAnswer(w, fpp, perfect, bestMatch, how.level))
  }

  /** There is no better match; and nothing could have cut the search short. */
  ghost predicate CompleteAnswer(w: World, fpp: FindPathParams, perfect: bool, c: int, bestMatch: int) {
    && (!perfect ==> NoBetterMatch(w, fpp, bestMatch))
    && forall d :: (perfect ==> d < c) ==> !Crowded(w, fpp, d) && (fpp.maxSearchDist == 0 ==> !Lengthy(w, fpp, d))
  }

  /** There were more tiles than nodes at that level, and no sooner. What is cheaper is no better; neither is what
      is within a step of cheaper tiles, if there is an answer at all; and the answer is within a step of the level. */
  ghost predicate UsedUpAnswer(w: World, fpp: FindPathParams, ok: bool, p: Pos, bestMatch: int, level: int) {
    && fpp.maxSearchDist > 10 && Crowded(w, fpp, level) && !Crowded(w, fpp, level - 1)
    && CheaperIsWorse(w, fpp, level, bestMatch, ok && bestMatch == 0)
    && (ok ==> Within(w, fpp, level, p))
    && (ok && bestMatch != 0 ==> forall q :: Within(w, fpp, level - 1, q) ==> NotBetter(w, fpp, q, bestMatch))
  }

  /** There were tiles for all the rounds; what is cheaper than the last of them is no better. */
  ghost predicate StoppedAnswer(w: World, fpp: FindPathParams, perfect: bool, bestMatch: int, level: int) {
    && fpp.maxSearchDist == 0 && Lengthy(w, fpp, level) && !perfect
    && CheaperIsWorse(w, fpp, level, bestMatch, false)
  }

  /** The answer with a node that was found, or with none. */
  ghost predicate Outcome(w: World, fpp: FindPathParams, s: Pool, found: int, bestMatch: int, how: End) {
    && Tree(w, fpp, s) && -1 <= found < |s.nodes|
    && var ok := found != -1;
       Answer(w, fpp, ok, if ok then s.nodes[found].pos else w.start, if ok then s.nodes[found].f else 0,
              bestMatch, how)
  }

  lemma SettledIsSeen(w: World, fpp: FindPathParams, s: Pool, c: int, bestMatch: int)
    requires Tree(w, fpp, s) && SettledBelow(w, fpp, s, c - 1) && Seen(w, fpp, s, bestMatch)
    ensures CheaperIsWorse(w, fpp, c, bestMatch, false) && CheaperIsWorse(w, fpp, c, 0, true)
  {
    forall path | Walk(w, fpp, path) && WalkCost(w, path) < c
      ensures NotBetter(w, fpp, path[|path|-1], bestMatch)
    {
      var p := path[|path|-1];
      assert Reached(w, fpp, c - 1, p);
      assert s.nodes[s.table[p]].pos == p && SeenAt(w, fpp, s, bestMatch, s.table[p]);
    }
  }

  /** Tiles cheaper than every open node fit into the pool and into the rounds so far. */
  lemma CheapFits(w: World, fpp: FindPathParams, s: Pool, d: int)
    requires Tree(w, fpp, s) && AllRelaxed(w, fpp, s) && (fpp.maxSearchDist == 0 ==> s.closedNodes < MAX_ROUNDS)
    requires forall i :: 0 <= i < |s.nodes| && s.open[i] ==> d < s.nodes[i].f
    ensures !Crowded(w, fpp, d) && (fpp.maxSearchDist == 0 ==> !Lengthy(w, fpp, d))
  {
    CheapIsSettled(w, fpp, s, d);
    SettledIsNotCrowded(w, fpp, s, d);
    if fpp.maxSearchDist == 0 {
      SettledIsNotLengthy(w, fpp, s, d);
    }
  }

  lemma NothingIsMissing(w: World, fpp: FindPathParams, s: Pool, bestMatch: int)
    requires Tree(w, fpp, s) && AllRelaxed(w, fpp, s) && Seen(w, fpp, s, bestMatch)
    requires fpp.maxSearchDist == 0 ==> s.closedNodes < MAX_ROUNDS
    requires forall i :: 0 <= i < |s.nodes| ==> !s.open[i]
    ensures forall c :: CompleteAnswer(w, fpp, false, c, bestMatch)
  {
    NothingOpen(w, fpp, s, bestMatch);
    forall d: int
      ensures !Crowded(w, fpp, d) && (fpp.maxSearchDist == 0 ==> !Lengthy(w, fpp, d))
    {
      CheapFits(w, fpp, s, d);
    }
  }

  /** When no node is open, everything that has a node is seen. */
  lemma WithinIsSeen(w: World, fpp: FindPathParams, s: Pool, c: int, bestMatch: int)
    requires s.Shaped() && Indexed(s) && HasAll(w, fpp, s, c) && Seen(w, fpp, s, bestMatch)
    requires forall i :: 0 <= i < |s.nodes| ==> !s.open[i]
    ensures forall q :: Within(w, fpp, c, q) ==> NotBetter(w, fpp, q, bestMatch)
  {
    forall q | Within(w, fpp, c, q)
      ensures NotBetter(w, fpp, q, bestMatch)
    {
      assert q in s.table;
      assert s.nodes[s.table[q]].pos == q && SeenAt(w, fpp, s, bestMatch, s.table[q]);
    }
  }

  /** The node in the answer, if there is one, is as good as it is said to be. */
  ghost predicate Answers(w: World, fpp: FindPathParams, s: Pool, found: int, bestMatch: int, room: End) {
    && Tree(w, fpp, s) && -1 <= found < |s.nodes|
    && if found == -1 then bestMatch == 0 else FoundOk(w, fpp, s, found, bestMatch, room)
  }

  lemma FullOutcome(w: World, fpp: FindPathParams, s: Pool, found: int, bestMatch: int, level: int)
    requires Answers(w, fpp, s, found, bestMatch, UsedUp(level)) && FullOk(w, fpp, s, level)
    requires CheaperIsWorse(w, fpp, level, bestMatch, found != -1 && bestMatch == 0)
    requires found != -1 && bestMatch != 0 ==> forall q :: Within(w, fpp, level - 1, q) ==>
        NotBetter(w, fpp, q, bestMatch)
    ensures Outcome(w, fpp, s, found, bestMatch, UsedUp(level))
  {
  }

  lemma CompleteOutcome(w: World, fpp: FindPathParams, s: Pool, found: int, bestMatch: int)
    requires Answers(w, fpp, s, found, bestMatch, Complete)
    requires CompleteAnswer(w, fpp, found != -1 && bestMatch == 0,
        if found != -1 then s.nodes[found].f else 0, bestMatch)
    ensures Outcome(w, fpp, s, found, bestMatch, Complete)
  {
  }

  lemma OutOfNodes(w: World, fpp: FindPathParams, s: Pool, found: int, bestMatch: int, room: End)
    requires Answers(w, fpp, s, found, bestMatch, room) && Seen(w, fpp, s, bestMatch) && RoomOk(w, fpp, s, room)
    requires found != -1 ==> bestMatch != 0
    requires fpp.maxSearchDist == 0 ==> s.closedNodes < MAX_ROUNDS
    requires forall i :: 0 <= i < |s.nodes| ==> !s.open[i]
    ensures Outcome(w, fpp, s, found, bestMatch, room)
  {
    if room.UsedUp? {
      SettledIsSeen(w, fpp, s, room.level, bestMatch);
      WithinIsSeen(w, fpp, s, room.level - 1, bestMatch);
      FullOutcome(w, fpp, s, found, bestMatch, room.level);
    } else {
      NothingIsMissing(w, fpp, s, bestMatch);
      CompleteOutcome(w, fpp, s, found, bestMatch);
    }
  }

  /** The nodes are used up before anything was found. */
  lemma PoolFull(w: World, fpp: FindPathParams, t: Pool, level: int)
    requires Tree(w, fpp, t) && Seen(w, fpp, t, 0) && FullOk(w, fpp, t, level)
    ensures Outcome(w, fpp, t, -1, 0, UsedUp(level))
  {
    SettledIsSeen(w, fpp, t, level, 0);
    FullOutcome(w, fpp, t, -1, 0, level);
  }

  lemma GrowsKeepsSeen(w: World, fpp: FindPathParams, s: Pool, t: Pool, bestMatch: int)
    requires s.Shaped() && t.Shaped() && Grows(s, t) && Seen(w, fpp, s, bestMatch)
    ensures Seen(w, fpp, t, bestMatch)
  {
    forall i | 0 <= i < |t.nodes|
      ensures SeenAt(w, fpp, t, bestMatch, i)
    {
      assert i < |s.nodes| ==> SeenAt(w, fpp, s, bestMatch, i);
    }
  }

  lemma PerfectMatch(w: World, fpp: FindPathParams, s: Pool, n: nat, bestMatch: int, room: End)
    requires Answers(w, fpp, s, n, 0, room) && Seen(w, fpp, s, bestMatch) && RoomOk(w, fpp, s, room)
    requires Expanding(w, fpp, s, n) && (fpp.maxSearchDist == 0 ==> s.closedNodes < MAX_ROUNDS)
    ensures Outcome(w, fpp, s, n, 0, room)
  {
    if room.UsedUp? {
      SettledIsSeen(w, fpp, s, room.level, bestMatch);
      FullOutcome(w, fpp, s, n, 0, room.level);
    } else {
      PerfectIsInTime(w, fpp, s, n);
      CompleteOutcome(w, fpp, s, n, 0);
    }
  }

  /** The cheapest open node is taken before anything could cut the search short. */
  lemma PerfectIsInTime(w: World, fpp: FindPathParams, s: Pool, n: nat)
    requires Expanding(w, fpp, s, n) && AllRelaxed(w, fpp, s) && (fpp.maxSearchDist == 0 ==> s.closedNodes < MAX_ROUNDS)
    ensures CompleteAnswer(w, fpp, true, s.nodes[n].f, 0)
  {
    forall d: int | d < s.nodes[n].f
      ensures !Crowded(w, fpp, d) && (fpp.maxSearchDist == 0 ==> !Lengthy(w, fpp, d))
    {
      forall i | 0 <= i < |s.nodes| && s.open[i]
        ensures d < s.nodes[i].f
      {
        assert FrontierAt(s, n, s.nodes[n].f, i);
      }
      CheapFits(w, fpp, s, d);
    }
  }

  /** The rounds are over. */
  lemma Limited(w: World, fpp: FindPathParams, s: Pool, level: int, found: int, bestMatch: int, room: End)
    requires SearchInv(w, fpp, s, level, found, bestMatch, room)
    requires fpp.maxSearchDist == 0 && s.closedNodes >= MAX_ROUNDS
    ensures Outcome(w, fpp, s, found, bestMatch, Stopped(level))
  {
    ManyRoundsAreLengthy(w, fpp, s, level);
    forall i | 0 <= i < |s.nodes| && s.open[i]
      ensures level - 1 < s.nodes[i].f
    {
      assert FrontierAt(s, -1, level, i);
    }
    CheapIsSettled(w, fpp, s, level - 1);
    SettledIsSeen(w, fpp, s, level, bestMatch);
  }

  /** The cheapest open node, ready to be expanded; -1 if none is open. */
  method PickNode(w: World, fpp: FindPathParams, pool: NodePool, ghost s: Pool, ghost level: int) returns (n: int)
    requires pool.Valid() && s == pool.View() && Tree(w, fpp, s) && Frontier(s, -1, level)
    ensures n == -1 ==> forall i :: 0 <= i < |s.nodes| ==> !s.open[i]
    ensures n != -1 ==> 0 <= n && Expanding(w, fpp, s, n) && s.nodes[n].parent < |s.nodes|
    ensures n > 0 ==> LinkOk(w, fpp, s, n) && !s.open[s.nodes[n].parent]
  {
    NodesBelowSentinel(w, fpp, s);
    n := pool.GetBestNode();
    if n != -1 {
      SelectKeeps(w, fpp, s, level, n);
    }
  }

  /** The start of a round: picks the node to expand; if there is none the search is over. */
  method NextNode(w: World, fpp: FindPathParams, pool: NodePool,
                  ghost s: Pool, ghost level: int, ghost found: int, ghost best: int, ghost room: End)
    returns (n: int)
    requires pool.Valid() && s == pool.View() && SearchInv(w, fpp, s, level, found, best, room)
    requires fpp.maxSearchDist == 0 ==> s.closedNodes < MAX_ROUNDS
    ensures n == -1 ==> Outcome(w, fpp, s, found, best, room)
    ensures n != -1 ==> 0 <= n && Expanding(w, fpp, s, n) && s.nodes[n].parent < |s.nodes|
    ensures n > 0 ==> LinkOk(w, fpp, s, n) && !s.open[s.nodes[n].parent]
  {
    n := PickNode(w, fpp, pool, s, level);
    if n == -1 {
      OutOfNodes(w, fpp, s, found, best, room);
    }
  }

  /** The rest of a round: expands node n and closes it, unless the pool is used up with nothing found. */
  method ExpandAndClose(w: World, fpp: FindPathParams, pool: NodePool, n: nat, found: int, best: int,
                        ghost s: Pool, ghost oldMatch: int, ghost room: End)
    returns (full: bool, ghost u: Pool, ghost room': End)
    requires Bounded(w) && pool.Valid() && s == pool.View()
    requires PickInv(w, fpp, s, n, found, best, oldMatch, room) && s.nodes[n].parent < |s.nodes|
    requires n > 0 ==> LinkOk(w, fpp, s, n) && !s.open[s.nodes[n].parent]
    requires fpp.maxSearchDist == 0 ==> s.closedNodes < MAX_ROUNDS
    modifies pool, pool.nodes, pool.openNodes
    ensures pool.Valid() && u == pool.View()
    ensures full && found == -1 ==> Outcome(w, fpp, u, -1, 0, room')
    ensures !full || found != -1 ==>
              SearchInv(w, fpp, u, s.nodes[n].f, found, best, room') && s.closedNodes < u.closedNodes <= MAX_NODES
  {
    ghost var t;
    full, t := Expand(w, fpp, pool, n, s);
    room' := RoomAfter(room, full, s.nodes[n].f);
    RoomStep(w, fpp, s, t, n, room, full);
    if full && found == -1 {
      NothingFound(w, fpp, s, t, s.nodes[n].f, oldMatch);
      u := t;
    } else {
      EndRound(w, fpp, s, t, t.Close(n), n, found, best, oldMatch, room, room');
      pool.CloseNode(n);
      u := t.Close(n);
    }
  }

  lemma NothingFound(w: World, fpp: FindPathParams, s: Pool, t: Pool, level: int, bestMatch: int)
    requires s.Shaped() && Seen(w, fpp, s, bestMatch) && bestMatch == 0
    requires Tree(w, fpp, t) && Grows(s, t) && FullOk(w, fpp, t, level)
    ensures Outcome(w, fpp, t, -1, 0, UsedUp(level))
  {
    GrowsKeepsSeen(w, fpp, s, t, bestMatch);
    PoolFull(w, fpp, t, level);
  }

  /** Tests the node that was picked: a perfect match ends the search, another one is the best so far. */
  method TestNode(w: World, fpp: FindPathParams, pool: NodePool, n: nat, found: int, best: int,
                  ghost s: Pool, ghost level: int, ghost room: End)
    returns (found': int, best': int, perfect: bool)
    requires pool.Valid() && s == pool.View() && SearchInv(w, fpp, s, level, found, best, room)
    requires Expanding(w, fpp, s, n)
    requires fpp.maxSearchDist == 0 ==> s.closedNodes < MAX_ROUNDS
    ensures if perfect then Outcome(w, fpp, s, found', best', room)
        else PickInv(w, fpp, s, n, found', best', best, room)
  {
    Pick(w, fpp, s, level, n, found, best, room);
    var (matches, newMatch) := PathCondition(w, fpp, pool.nodes[n].pos, best);
    found', best', perfect := if matches then n else found, newMatch, matches && newMatch == 0;
    if perfect {
      PerfectMatch(w, fpp, s, n, best, room);
    }
  }

  /** The search loop: expands the cheapest open node until a match ends it or it runs dry. */
  method Search(w: World, fpp: FindPathParams, pool: NodePool)
    returns (found: int, best: int, ghost s: Pool, ghost how: End)
    requires Bounded(w) && pool.Valid()
    requires pool.View() == Pool([Node(-1, w.start, 0)], [true], map[w.start := 0], 0)
    modifies pool, pool.nodes, pool.openNodes
    ensures pool.Valid() && s == pool.View() && Outcome(w, fpp, s, found, best, how)
  {
    s := pool.View();
    ghost var level := 0;
    found, best, how := -1, 0, Complete;
    Begin(w, fpp);
    while fpp.maxSearchDist != 0 || pool.closedNodes < MAX_ROUNDS
      invariant pool.Valid() && s == pool.View()
      invariant SearchInv(w, fpp, s, level, found, best, how)
      invariant s.closedNodes <= MAX_NODES
      decreases MAX_NODES - s.closedNodes
    {
      var n := NextNode(w, fpp, pool, s, level, found, best, how);
      if n == -1 {
        return;
      }
      ghost var oldMatch := best;
      var perfect;
      found, best, perfect := TestNode(w, fpp, pool, n, found, best, s, level, how);
      if perfect {
        return;
      }
      level := s.nodes[n].f;
      var full;
      full, s, how := ExpandAndClose(w, fpp, pool, n, found, best, s, oldMatch, how);
      if full && found == -1 {
        return;
      }
    }
    Limited(w, fpp, s, level, found, best, how);
    how := Stopped(level);
  }

  lemma Begin(w: World, fpp: FindPathParams)
    ensures SearchInv(w, fpp, Pool([Node(-1, w.start, 0)], [true], map[w.start := 0], 0), 0, -1, 0, Complete)
  {
    Initial(w, fpp);
  }

  /** A walk that ends where the search could stop. */
  ghost predicate ReachesMatch(w: World, fpp: FindPathParams, path: seq<Pos>) {
    Walk(w, fpp, path) && (Perfect(w, fpp, path[|path|-1]) || Partial(w, fpp, path[|path|-1]))
  }

  /** The answer in full: the directions are a walk to a match, with the cost and the rank the search says. */
  ghost predicate PathAnswer(w: World, fpp: FindPathParams, ok: bool, dirs: seq<Direction>, bestMatch: int, how: End) {
    var path := Replay(w.start, dirs);
    (ok ==> Walk(w, fpp, path)) && Answer(w, fpp, ok, path[|path|-1], WalkCost(w, path), bestMatch, how)
  }

  /** Searches for the cheapest way to a match. */
  method GetPathMatching(w: World, fpp: FindPathParams)
    returns (ok: bool, dirs: seq<Direction>, ghost bestMatch: int, ghost how: End)
    requires Bounded(w)
    ensures PathAnswer(w, fpp, ok, dirs, bestMatch, how)
    ensures if ok then ReachesMatch(w, fpp, Replay(w.start, dirs)) else dirs == []
    // with no search distance, or one of at most 10, what is found is always a cheapest best match so far
    ensures fpp.maxSearchDist <= 10 && ok ==> LeastCost(w, fpp, bestMatch, WalkCost(w, Replay(w.start, dirs)))
    // and with one of 1 to 10 a path is found just when there is one to find
    ensures 1 <= fpp.maxSearchDist <= 10 ==> (ok <==> exists path :: ReachesMatch(w, fpp, path))
    ensures 1 <= fpp.maxSearchDist <= 10 ==> how.Complete?
  {
    var pool := new NodePool(w.start);
    var found;
    ghost var s;
    found, bestMatch, s, how := Search(w, fpp, pool);
    ok, dirs := false, [];
    if found == -1 {
      assert WalkCost(w, Replay(w.start, dirs)) == 0;
      return;
    }
    dirs := ReadDirections(w, fpp, pool, found, s);
    ok := true;
    assert ReachesMatch(w, fpp, Replay(w.start, dirs));
  }

  // ---- what can be said beforehand

  ghost predicate PerfectCosts(w: World, fpp: FindPathParams, c: int) {
    forall path :: Walk(w, fpp, path) && Perfect(w, fpp, path[|path|-1]) ==> c <= WalkCost(w, path)
  }

  /** With a search distance, the nodes are used up exactly when the tiles get too many before a perfect match is
      reached; where they do at the very cost of the match, the order of the tiles decides. */
  lemma WhenUsedUp(w: World, fpp: FindPathParams, ok: bool, dirs: seq<Direction>, bestMatch: int, how: End)
    requires PathAnswer(w, fpp, ok, dirs, bestMatch, how) && fpp.maxSearchDist != 0
    ensures how.UsedUp? ==> Crowded(w, fpp, how.level) && PerfectCosts(w, fpp, how.level)
    ensures (exists d :: Crowded(w, fpp, d) && PerfectCosts(w, fpp, d + 1)) ==> how.UsedUp?
  {
    var path := Replay(w.start, dirs);
    if how.Complete? && ok && bestMatch == 0 {
      forall d | Crowded(w, fpp, d)
        ensures !PerfectCosts(w, fpp, d + 1)
      {
        assert Walk(w, fpp, path) && Perfect(w, fpp, path[|path|-1]);
      }
    }
  }

  /** Without one, the rounds are over before a perfect match is reached exactly when that many tiles are reached
      before. */
  lemma WhenStopped(w: World, fpp: FindPathParams, ok: bool, dirs: seq<Direction>, bestMatch: int, how: End)
    requires PathAnswer(w, fpp, ok, dirs, bestMatch, how) && fpp.maxSearchDist == 0
    ensures how.Stopped? ==> Lengthy(w, fpp, how.level) && PerfectCosts(w, fpp, how.level)
    ensures (exists d :: Lengthy(w, fpp, d) && PerfectCosts(w, fpp, d + 1)) ==> how.Stopped?
  {
    var path := Replay(w.start, dirs);
    if how.Complete? && ok && bestMatch == 0 {
      forall d | Lengthy(w, fpp, d)
        ensures !PerfectCosts(w, fpp, d + 1)
      {
        assert Walk(w, fpp, path) && Perfect(w, fpp, path[|path|-1]);
      }
    }
  }
}
