/** What bounds a path search from outside: how many tiles there are to reach, and at what cost. */
module PathLimits {
  import opened Basics
  import opened PathWorld
  import opened AStarNodes
  import opened PathInvariant

  /** Some walk that costs at most c ends at p. */
  ghost predicate Reached(w: World, fpp: FindPathParams, c: int, p: Pos) {
    exists path :: Walk(w, fpp, path) && path[|path|-1] == p && WalkCost(w, path) <= c
  }

  /** The start, or one step from a tile that is reached at cost c: what the search needs nodes for. */
  ghost predicate Within(w: World, fpp: FindPathParams, c: int, q: Pos) {
    q == w.start || (Admitted(w, fpp, q) && exists p :: Reached(w, fpp, c, p) && Edge(w, fpp, p, q))
  }

  /** That is more tiles than there are nodes. */
  ghost predicate Crowded(w: World, fpp: FindPathParams, c: int) {
    exists tiles: seq<Pos> :: |tiles| > MAX_NODES && Distinct(tiles) && forall p :: p in tiles ==> Within(w, fpp, c, p)
  }

  /** The rounds of a search without a search distance. */
  const MAX_ROUNDS := 100

  /** There are tiles for that many rounds. */
  ghost predicate Lengthy(w: World, fpp: FindPathParams, c: int) {
    exists tiles: seq<Pos> :: |tiles| >= MAX_ROUNDS && Distinct(tiles) && forall p :: p in tiles ==>
        Reached(w, fpp, c, p)
  }

  // ---- counting

  lemma {:induction false} DistinctBound(s: seq<nat>, n: nat)
    requires Distinct(s) && forall i :: 0 <= i < |s| ==> s[i] < n
    ensures |s| <= n
  {
    if s == [] {
    } else if i :| 0 <= i < |s| && s[i] == n - 1 {
      DistinctBound(s[..i] + s[i+1..], n - 1);
    } else {
      assert s[0] < n;
      DistinctBound(s, n - 1);
    }
  }

  /** Tiles that have nodes are no more than the nodes. */
  lemma TilesFit(s: Pool, tiles: seq<Pos>)
    requires s.Shaped() && Indexed(s) && Distinct(tiles) && forall p :: p in tiles ==> p in s.table
    ensures |tiles| <= |s.nodes|
  {
    var indices := seq(|tiles|, i requires 0 <= i < |tiles| => s.table[tiles[i]]);
    forall i, j | 0 <= i < j < |indices|
      ensures indices[i] != indices[j]
    {
      assert s.nodes[indices[i]].pos == tiles[i] && s.nodes[indices[j]].pos == tiles[j];
    }
    DistinctBound(indices, |s.nodes|);
  }

  lemma {:induction false} ClosedBound(open: seq<bool>, indices: seq<nat>)
    requires Distinct(indices) && forall i :: 0 <= i < |indices| ==> indices[i] < |open| && !open[indices[i]]
    ensures |indices| <= ClosedCount(open)
    decreases |open|
  {
    var n := |open| - 1;
    if indices == [] {
    } else if k :| 0 <= k < |indices| && indices[k] == n {
      ClosedBound(open[..n], indices[..k] + indices[k+1..]);
    } else {
      assert indices[0] < |open|;
      ClosedBound(open[..n], indices);
    }
  }

  /** Tiles that have closed nodes are no more than those. */
  lemma ClosedTilesFit(s: Pool, tiles: seq<Pos>)
    requires s.Shaped() && Indexed(s) && Distinct(tiles)
    requires forall p :: p in tiles ==> p in s.table && !s.open[s.table[p]]
    ensures |tiles| <= ClosedCount(s.open)
  {
    var indices := seq(|tiles|, i requires 0 <= i < |tiles| => s.table[tiles[i]]);
    forall i, j | 0 <= i < j < |indices|
      ensures indices[i] != indices[j]
    {
      assert s.nodes[indices[i]].pos == tiles[i] && s.nodes[indices[j]].pos == tiles[j];
    }
    ClosedBound(s.open, indices);
  }

  lemma {:induction false} ClosedIndices(open: seq<bool>) returns (indices: seq<nat>)
    ensures |indices| == ClosedCount(open) && Distinct(indices)
    ensures forall i :: 0 <= i < |indices| ==> indices[i] < |open| && !open[indices[i]]
  {
    indices := [];
    if open != [] {
      var n := |open| - 1;
      indices := ClosedIndices(open[..n]);
      if !open[n] {
        indices := indices + [n];
      }
    }
  }

  // ---- what the search knows of them

  /** Every node's tile is within one step of the cost level. */
  lemma NodesAreWithin(w: World, fpp: FindPathParams, s: Pool, n: nat, i: nat)
    requires Expanding(w, fpp, s, n) && i < |s.nodes|
    ensures Within(w, fpp, s.nodes[n].f, s.nodes[i].pos)
  {
    if i > 0 {
      assert LinkOk(w, fpp, s, i) && FrontierAt(s, n, s.nodes[n].f, i);
      var parent := s.nodes[i].parent;
      assert FrontierAt(s, n, s.nodes[n].f, parent);
      var path := TreePath(w, fpp, s, parent);
      assert Reached(w, fpp, s.nodes[n].f, s.nodes[parent].pos);
    }
  }

  /** One tile more than there are nodes. */
  lemma PoolIsCrowded(w: World, fpp: FindPathParams, s: Pool, n: nat, q: Pos)
    requires Expanding(w, fpp, s, n) && |s.nodes| == MAX_NODES
    requires q !in s.table && Admitted(w, fpp, q) && Edge(w, fpp, s.nodes[n].pos, q)
    ensures Crowded(w, fpp, s.nodes[n].f)
  {
    var tiles := seq(|s.nodes|, i requires 0 <= i < |s.nodes| => s.nodes[i].pos) + [q];
    forall p | p in tiles
      ensures Within(w, fpp, s.nodes[n].f, p)
    {
      if p == q {
        assert TreePath(w, fpp, s, n) != [];
        assert Reached(w, fpp, s.nodes[n].f, s.nodes[n].pos);
      } else {
        var i :| 0 <= i < |s.nodes| && tiles[i] == p;
        NodesAreWithin(w, fpp, s, n, i);
      }
    }
    assert Distinct(tiles) by {
      forall i, j | 0 <= i < j < |tiles|
        ensures tiles[i] != tiles[j]
      {
        assert s.table[s.nodes[i].pos] == i;
      }
    }
  }

  /** Tiles reached at cost c have closed nodes. */
  ghost predicate SettledBelow(w: World, fpp: FindPathParams, s: Pool, c: int)
    requires s.Shaped()
  {
    forall p {:trigger Reached(w, fpp, c, p)} :: Reached(w, fpp, c, p) ==>
      p in s.table && s.table[p] < |s.nodes| && !s.open[s.table[p]]
  }

  /** Tiles within a step of cost c have nodes. */
  ghost predicate HasAll(w: World, fpp: FindPathParams, s: Pool, c: int) {
    forall q {:trigger Within(w, fpp, c, q)} :: Within(w, fpp, c, q) ==> q in s.table
  }

  /** What is cheaper than every open node is closed. */
  lemma CheapIsSettled(w: World, fpp: FindPathParams, s: Pool, c: int)
    requires Tree(w, fpp, s) && AllRelaxed(w, fpp, s)
    requires forall i :: 0 <= i < |s.nodes| && s.open[i] ==> c < s.nodes[i].f
    ensures SettledBelow(w, fpp, s, c)
  {
    forall p | Reached(w, fpp, c, p)
      ensures p in s.table && s.table[p] < |s.nodes| && !s.open[s.table[p]]
    {
      var path :| Walk(w, fpp, path) && path[|path|-1] == p && WalkCost(w, path) <= c;
      FrontierCuts(w, fpp, s, path);
    }
  }

  /** So all tiles one step further have nodes, and there are not too many. */
  lemma SettledIsNotCrowded(w: World, fpp: FindPathParams, s: Pool, c: int)
    requires Tree(w, fpp, s) && AllRelaxed(w, fpp, s) && SettledBelow(w, fpp, s, c)
    ensures HasAll(w, fpp, s, c) && !Crowded(w, fpp, c)
  {
    forall q | Within(w, fpp, c, q)
      ensures q in s.table
    {
      if q == w.start {
        assert s.nodes[0].pos in s.table;
      } else {
        var p :| Reached(w, fpp, c, p) && Edge(w, fpp, p, q);
        assert Relaxed(w, fpp, s, s.table[p]) && s.nodes[s.table[p]].pos == p;
        assert RelaxedTo(w, fpp, s, s.table[p], q);
      }
    }
    if Crowded(w, fpp, c) {
      var tiles :| |tiles| > MAX_NODES && Distinct(tiles) && forall p :: p in tiles ==> Within(w, fpp, c, p);
      TilesFit(s, tiles);
    }
  }

  /** With few closed nodes few tiles can have been reached. */
  lemma SettledIsNotLengthy(w: World, fpp: FindPathParams, s: Pool, c: int)
    requires Tree(w, fpp, s) && SettledBelow(w, fpp, s, c) && s.closedNodes < MAX_ROUNDS
    ensures !Lengthy(w, fpp, c)
  {
    if Lengthy(w, fpp, c) {
      var tiles :| |tiles| >= MAX_ROUNDS && Distinct(tiles) && forall p :: p in tiles ==> Reached(w, fpp, c, p);
      ClosedTilesFit(s, tiles);
    }
  }

  /** With many closed nodes many have. */
  lemma ManyRoundsAreLengthy(w: World, fpp: FindPathParams, s: Pool, level: int)
    requires Tree(w, fpp, s) && Frontier(s, -1, level) && s.closedNodes >= MAX_ROUNDS
    ensures Lengthy(w, fpp, level)
  {
    var indices := ClosedIndices(s.open);
    var tiles := seq(|indices|, k requires 0 <= k < |indices| => s.nodes[indices[k]].pos);
    forall p | p in tiles
      ensures Reached(w, fpp, level, p)
    {
      var k :| 0 <= k < |tiles| && tiles[k] == p;
      assert FrontierAt(s, -1, level, indices[k]);
      assert TreePath(w, fpp, s, indices[k])[|TreePath(w, fpp, s, indices[k])|-1] == p;
    }
    forall i, j | 0 <= i < j < |tiles|
      ensures tiles[i] != tiles[j]
    {
      assert s.table[tiles[i]] == indices[i] && s.table[tiles[j]] == indices[j];
    }
  }
}
