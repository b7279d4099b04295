/** What every step of the path search keeps, and what that says about the nodes found so far. */
module PathInvariant {
  import opened Basics
  import opened PathWorld
  import opened AStarNodes

  /** Node i is a step from its parent over an admitted tile, and its f says so. */
  ghost predicate LinkOk(w: World, fpp: FindPathParams, s: Pool, i: int)
    requires s.Shaped() && 0 <= i < |s.nodes|
  {
    var n := s.nodes[i];
    && 0 <= n.parent < |s.nodes|
    && Admitted(w, fpp, n.pos)
    && Edge(w, fpp, s.nodes[n.parent].pos, n.pos)
    && n.f == s.nodes[n.parent].f + MoveCost(w, s.nodes[n.parent].pos, n.pos)
    && 0 < n.f <= MAX_STEP_COST * i
  }

  /** Node 0 is the start, every other node hangs on its parent. */
  ghost predicate Links(w: World, fpp: FindPathParams, s: Pool)
    requires s.Shaped()
  {
    && |s.nodes| > 0
    && s.nodes[0] == Node(-1, w.start, 0)
    && (forall i :: 1 <= i < |s.nodes| ==> LinkOk(w, fpp, s, i))
  }

  /** The table leads from each position to its only node. */
  ghost predicate Indexed(s: Pool)
    requires s.Shaped()
  {
    && (forall p :: p in s.table ==> s.table[p] < |s.nodes| && s.nodes[s.table[p]].pos == p)
    && (forall i :: 0 <= i < |s.nodes| ==> s.nodes[i].pos in s.table && s.table[s.nodes[i].pos] == i)
  }

  /** The pool is a tree of admitted walks from the start, with one node for each position. */
  ghost predicate Tree(w: World, fpp: FindPathParams, s: Pool) {
    && s.Shaped()
    && Links(w, fpp, s)
    && Indexed(s)
    && s.closedNodes == ClosedCount(s.open)
  }

  /** The cost level separates closed from open nodes; only closed nodes, or the node being expanded, have children. */
  ghost predicate FrontierAt(s: Pool, cur: int, level: int, i: int)
    requires s.Shaped() && 0 <= i < |s.nodes|
  {
    var parent := s.nodes[i].parent;
    && (if s.open[i] then level <= s.nodes[i].f else s.nodes[i].f <= level)
    && (i > 0 ==> 0 <= parent < |s.nodes| && (parent == cur || !s.open[parent]))
  }

  ghost predicate Frontier(s: Pool, cur: int, level: int)
    requires s.Shaped()
  {
    forall i :: 0 <= i < |s.nodes| ==> FrontierAt(s, cur, level, i)
  }

  /** q, if the creature may step there, is in the pool and is no dearer than through node j. */
  ghost predicate RelaxedTo(w: World, fpp: FindPathParams, s: Pool, j: int, q: Pos)
    requires s.Shaped() && 0 <= j < |s.nodes|
  {
    Admitted(w, fpp, q) ==>
      && q in s.table
      && s.table[q] < |s.nodes|
      && s.nodes[s.table[q]].f <= s.nodes[j].f + MoveCost(w, s.nodes[j].pos, q)
  }

  ghost predicate Relaxed(w: World, fpp: FindPathParams, s: Pool, j: int)
    requires s.Shaped() && 0 <= j < |s.nodes|
  {
    forall q :: Edge(w, fpp, s.nodes[j].pos, q) ==> RelaxedTo(w, fpp, s, j, q)
  }

  /** Every neighbour of every closed node was taken into account. */
  ghost predicate AllRelaxed(w: World, fpp: FindPathParams, s: Pool)
    requires s.Shaped()
  {
    forall j :: 0 <= j < |s.nodes| && !s.open[j] ==> Relaxed(w, fpp, s, j)
  }

  /** The pool only grows, costs only fall, closed nodes stay as they are. */
  ghost predicate Grows(s: Pool, t: Pool)
    requires s.Shaped() && t.Shaped()
  {
    && |s.nodes| <= |t.nodes|
    && t.closedNodes == s.closedNodes
    && (forall i :: 0 <= i < |s.nodes| ==>
          && t.nodes[i].pos == s.nodes[i].pos
          && t.nodes[i].f <= s.nodes[i].f
          && t.open[i] == s.open[i]
          && (!s.open[i] ==> t.nodes[i] == s.nodes[i]))
    && (forall i :: |s.nodes| <= i < |t.nodes| ==> t.open[i])
    && (forall p :: p in s.table ==> p in t.table && t.table[p] == s.table[p])
  }

  lemma NodesBelowSentinel(w: World, fpp: FindPathParams, s: Pool)
    requires Tree(w, fpp, s)
    ensures forall i :: 0 <= i < |s.nodes| ==> s.nodes[i].f < INT32_MAX
  {
    forall i | 0 <= i < |s.nodes|
      ensures s.nodes[i].f < INT32_MAX
    {
      if i > 0 {
        assert LinkOk(w, fpp, s, i);
      }
    }
  }

  /** The first pool of the search. */
  lemma Initial(w: World, fpp: FindPathParams)
    ensures var s := Pool([Node(-1, w.start, 0)], [true], map[w.start := 0], 0);
      Tree(w, fpp, s) && Frontier(s, -1, 0) && AllRelaxed(w, fpp, s)
  {
    var open := [true];
    assert open[..0] == [];
    assert ClosedCount(open) == 0;
  }

  /** What holds while node n is being expanded. */
  ghost predicate Expanding(w: World, fpp: FindPathParams, s: Pool, n: int) {
    && Tree(w, fpp, s)
    && 0 <= n < |s.nodes|
    && s.open[n]
    && Frontier(s, n, s.nodes[n].f)
  }

  lemma AppendLinks(w: World, fpp: FindPathParams, s: Pool, n: nat, q: Pos)
    requires Expanding(w, fpp, s, n) && |s.nodes| < MAX_NODES
    requires Admitted(w, fpp, q) && Edge(w, fpp, s.nodes[n].pos, q)
    ensures Links(w, fpp, s.Append(n, q, s.nodes[n].f + MoveCost(w, s.nodes[n].pos, q)))
  {
    var t := s.Append(n, q, s.nodes[n].f + MoveCost(w, s.nodes[n].pos, q));
    assert n > 0 ==> LinkOk(w, fpp, s, n);
    forall i | 1 <= i < |t.nodes|
      ensures LinkOk(w, fpp, t, i)
    {
      if i < |s.nodes| {
        assert LinkOk(w, fpp, s, i);
      }
    }
  }

  /** Appending a node reached through n. */
  lemma AppendKeeps(w: World, fpp: FindPathParams, s: Pool, n: nat, q: Pos)
    requires Expanding(w, fpp, s, n) && |s.nodes| < MAX_NODES
    requires q !in s.table && Admitted(w, fpp, q) && Edge(w, fpp, s.nodes[n].pos, q)
    ensures var t := s.Append(n, q, s.nodes[n].f + MoveCost(w, s.nodes[n].pos, q));
      && Expanding(w, fpp, t, n) && Grows(s, t) && t.nodes[n] == s.nodes[n]
      && RelaxedTo(w, fpp, t, n, q)
  {
    var t := s.Append(n, q, s.nodes[n].f + MoveCost(w, s.nodes[n].pos, q));
    AppendLinks(w, fpp, s, n, q);
    assert t.open[..|t.open|-1] == s.open;
    forall i | 0 <= i < |t.nodes|
      ensures FrontierAt(t, n, s.nodes[n].f, i)
    {
      if i < |s.nodes| {
        assert FrontierAt(s, n, s.nodes[n].f, i);
      }
    }
  }

  lemma ImproveLinks(w: World, fpp: FindPathParams, s: Pool, n: nat, v: nat)
    requires Expanding(w, fpp, s, n) && v < |s.nodes|
    requires Edge(w, fpp, s.nodes[n].pos, s.nodes[v].pos)
    requires s.nodes[n].f + MoveCost(w, s.nodes[n].pos, s.nodes[v].pos) < s.nodes[v].f
    ensures v > 0 && v != n && s.open[v]
    ensures Links(w, fpp, s.Reparent(v, n, s.nodes[n].f + MoveCost(w, s.nodes[n].pos, s.nodes[v].pos)))
  {
    assert v > 0 ==> LinkOk(w, fpp, s, v);
    assert n > 0 ==> LinkOk(w, fpp, s, n);
    assert FrontierAt(s, n, s.nodes[n].f, v);
    var t := s.Reparent(v, n, s.nodes[n].f + MoveCost(w, s.nodes[n].pos, s.nodes[v].pos));
    forall i | 1 <= i < |t.nodes|
      ensures LinkOk(w, fpp, t, i)
    {
      assert LinkOk(w, fpp, s, i);
      assert FrontierAt(s, n, s.nodes[n].f, i);
    }
  }

  /** Reaching a known node more cheaply through n. It was open before: closed nodes are never reopened. */
  lemma ImproveKeeps(w: World, fpp: FindPathParams, s: Pool, n: nat, v: nat)
    requires Expanding(w, fpp, s, n) && v < |s.nodes|
    requires Edge(w, fpp, s.nodes[n].pos, s.nodes[v].pos)
    requires s.nodes[n].f + MoveCost(w, s.nodes[n].pos, s.nodes[v].pos) < s.nodes[v].f
    ensures s.open[v]
    ensures var t := s.Reparent(v, n, s.nodes[n].f + MoveCost(w, s.nodes[n].pos, s.nodes[v].pos));
      && Expanding(w, fpp, t, n) && Grows(s, t) && t.nodes[n] == s.nodes[n]
      && RelaxedTo(w, fpp, t, n, s.nodes[v].pos)
  {
    ImproveLinks(w, fpp, s, n, v);
    var t := s.Reparent(v, n, s.nodes[n].f + MoveCost(w, s.nodes[n].pos, s.nodes[v].pos));
    forall i | 0 <= i < |t.nodes|
      ensures FrontierAt(t, n, s.nodes[n].f, i)
    {
      assert FrontierAt(s, n, s.nodes[n].f, i);
    }
  }

  lemma GrowsKeepsRelaxed(w: World, fpp: FindPathParams, s: Pool, t: Pool)
    requires s.Shaped() && t.Shaped() && Grows(s, t)
    requires AllRelaxed(w, fpp, s)
    ensures AllRelaxed(w, fpp, t)
  {
    forall j | 0 <= j < |t.nodes| && !t.open[j]
      ensures Relaxed(w, fpp, t, j)
    {
      assert Relaxed(w, fpp, s, j);
      forall q | Edge(w, fpp, t.nodes[j].pos, q)
        ensures RelaxedTo(w, fpp, t, j, q)
      {
        assert RelaxedTo(w, fpp, s, j, q);
      }
    }
  }

  /** Parent, node and neighbour: a neighbour the node skips is its parent or no dearer straight from the parent. */
  lemma PrunedIsNoCheaper(w: World, fpp: FindPathParams, parent: Pos, p: Pos, q: Pos)
    requires Edge(w, fpp, parent, p) && Edge(w, fpp, p, q) && p != w.start
    requires (q.x - p.x, q.y - p.y) !in PrunedNeighbors(parent, p, fpp.allowDiagonal)
    ensures q == parent || (Edge(w, fpp, parent, q)
        && MoveCost(w, parent, q) < MoveCost(w, parent, p) + MoveCost(w, p, q))
  {
    var o := (q.x - p.x, q.y - p.y);
    var table := DirNeighbors(ParentSide(parent.x - p.x, parent.y - p.y, fpp.allowDiagonal));
    var tried := PrunedNeighbors(parent, p, fpp.allowDiagonal);
    assert o != tried[0] && o != tried[1] && o != tried[2];
    assert fpp.allowDiagonal ==> o != table[3] && o != table[4];
  }

  /** So the skipped neighbours are taken care of by the parent, which is closed. */
  lemma PrunedIsRelaxed(w: World, fpp: FindPathParams, s: Pool, n: nat, q: Pos)
    requires Tree(w, fpp, s) && 0 < n < |s.nodes| && LinkOk(w, fpp, s, n)
    requires !s.open[s.nodes[n].parent] && Relaxed(w, fpp, s, s.nodes[n].parent)
    requires Edge(w, fpp, s.nodes[n].pos, q)
    requires var p := s.nodes[n].pos;
      (q.x - p.x, q.y - p.y) !in PrunedNeighbors(s.nodes[s.nodes[n].parent].pos, p, fpp.allowDiagonal)
    ensures RelaxedTo(w, fpp, s, n, q)
  {
    var parent := s.nodes[s.nodes[n].parent].pos;
    assert LinkOk(w, fpp, s, n);
    assert s.nodes[n].pos != w.start;
    PrunedIsNoCheaper(w, fpp, parent, s.nodes[n].pos, q);
    if q != parent {
      assert RelaxedTo(w, fpp, s, s.nodes[n].parent, q);
    }
  }

  /** Neighbours of the start node are all tried. */
  lemma AllNeighborsAreAll(w: World, fpp: FindPathParams, p: Pos, q: Pos)
    requires Edge(w, fpp, p, q)
    ensures (q.x - p.x, q.y - p.y) in AllNeighbors()
  {
    var o := (q.x - p.x, q.y - p.y);
    if o.0 == -1 { assert o == AllNeighbors()[0] || o == AllNeighbors()[4] || o == AllNeighbors()[7]; }
    else if o.0 == 0 { assert o == AllNeighbors()[1] || o == AllNeighbors()[3]; }
    else { assert o == AllNeighbors()[2] || o == AllNeighbors()[5] || o == AllNeighbors()[6]; }
  }

  /** Picking the cheapest open node. */
  lemma SelectKeeps(w: World, fpp: FindPathParams, s: Pool, level: int, n: nat)
    requires Tree(w, fpp, s) && Frontier(s, -1, level)
    requires n < |s.nodes| && s.open[n] && forall i :: 0 <= i < |s.nodes| && s.open[i] ==> s.nodes[n].f <= s.nodes[i].f
    ensures Expanding(w, fpp, s, n) && level <= s.nodes[n].f
    ensures n > 0 ==> LinkOk(w, fpp, s, n) && !s.open[s.nodes[n].parent]
  {
    assert FrontierAt(s, -1, level, n);
    forall i | 0 <= i < |s.nodes|
      ensures FrontierAt(s, n, s.nodes[n].f, i)
    {
      assert FrontierAt(s, -1, level, i);
    }
  }

  /** Closing the expanded node. */
  lemma CloseKeeps(w: World, fpp: FindPathParams, s: Pool, n: nat)
    requires Expanding(w, fpp, s, n)
    ensures var t := s.Close(n);
      && Tree(w, fpp, t) && Frontier(t, -1, s.nodes[n].f)
      && ClosedCount(t.open) == ClosedCount(s.open) + 1
      && (AllRelaxed(w, fpp, s) && Relaxed(w, fpp, s, n) ==> AllRelaxed(w, fpp, t))
  {
    var t := s.Close(n);
    ClosedCountUpdate(s.open, n, false);
    assert forall i :: 1 <= i < |s.nodes| && LinkOk(w, fpp, s, i) ==> LinkOk(w, fpp, t, i);
    forall i | 0 <= i < |t.nodes|
      ensures FrontierAt(t, -1, s.nodes[n].f, i)
    {
      assert FrontierAt(s, n, s.nodes[n].f, i);
    }
    if AllRelaxed(w, fpp, s) && Relaxed(w, fpp, s, n) {
      forall j | 0 <= j < |t.nodes| && !t.open[j]
        ensures Relaxed(w, fpp, t, j)
      {
        assert Relaxed(w, fpp, s, j);
        assert forall q :: Edge(w, fpp, s.nodes[j].pos, q) && RelaxedTo(w, fpp, s, j, q) ==> RelaxedTo(w, fpp, t, j, q);
      }
    }
  }

  /** p has a closed node that costs no more than c. */
  ghost predicate ClosedWithin(s: Pool, p: Pos, c: int)
    requires s.Shaped()
  {
    p in s.table && s.table[p] < |s.nodes| && !s.open[s.table[p]] && s.nodes[s.table[p]].f <= c
  }

  /** The frontier cuts every walk: it ends at a closed node that is no dearer,
      or some open node is no dearer than the whole walk. */
  lemma {:induction false} FrontierCuts(w: World, fpp: FindPathParams, s: Pool, path: seq<Pos>)
    requires Tree(w, fpp, s) && AllRelaxed(w, fpp, s) && Walk(w, fpp, path)
    ensures ClosedWithin(s, path[|path|-1], WalkCost(w, path))
      || exists i :: 0 <= i < |s.nodes| && s.open[i] && s.nodes[i].f <= WalkCost(w, path)
    decreases |path|
  {
    var n := |path| - 1;
    if n == 0 {
      assert s.nodes[0].f == 0 && s.table[w.start] == 0;
    } else {
      var prefix := path[..n];
      assert Walk(w, fpp, prefix) by {
        forall k | 0 < k < |prefix|
          ensures Admitted(w, fpp, prefix[k]) && Edge(w, fpp, prefix[k-1], prefix[k])
        {
          assert prefix[k] == path[k] && prefix[k-1] == path[k-1];
        }
      }
      FrontierCuts(w, fpp, s, prefix);
      if ClosedWithin(s, path[n-1], WalkCost(w, prefix)) {
        var j := s.table[path[n-1]];
        assert Relaxed(w, fpp, s, j);
        assert RelaxedTo(w, fpp, s, j, path[n]);
      }
    }
  }

  /** The cheapest open node is reached as cheaply as by any walk. */
  lemma {:induction false} SelectedIsLeast(w: World, fpp: FindPathParams, s: Pool, n: nat, path: seq<Pos>)
    requires Expanding(w, fpp, s, n) && AllRelaxed(w, fpp, s) && Walk(w, fpp, path)
    ensures ClosedWithin(s, path[|path|-1], WalkCost(w, path)) || s.nodes[n].f <= WalkCost(w, path)
    ensures path[|path|-1] == s.nodes[n].pos ==> s.nodes[n].f <= WalkCost(w, path)
  {
    FrontierCuts(w, fpp, s, path);
    if i :| 0 <= i < |s.nodes| && s.open[i] && s.nodes[i].f <= WalkCost(w, path) {
      assert FrontierAt(s, n, s.nodes[n].f, i);
    }
  }

  /** The walk recorded by the parents of node i. */
  ghost function TreePath(w: World, fpp: FindPathParams, s: Pool, i: nat): (path: seq<Pos>)
    requires Tree(w, fpp, s) && i < |s.nodes|
    ensures Walk(w, fpp, path) && path[|path|-1] == s.nodes[i].pos
    ensures WalkCost(w, path) == s.nodes[i].f
    decreases s.nodes[i].f
  {
    if i == 0 then [w.start]
    else
      assert LinkOk(w, fpp, s, i);
      var parent := s.nodes[i].parent;
      assert parent > 0 ==> LinkOk(w, fpp, s, parent);
      var prefix := TreePath(w, fpp, s, parent);
      var path := prefix + [s.nodes[i].pos];
      assert path[..|path|-1] == prefix;
      path
  }

  /** Growing the pool keeps what is known about one neighbour of n. */
  lemma GrowsKeepsRelaxedTo(w: World, fpp: FindPathParams, s: Pool, t: Pool, n: nat, q: Pos)
    requires s.Shaped() && t.Shaped() && Grows(s, t) && n < |s.nodes| && t.nodes[n] == s.nodes[n]
    requires RelaxedTo(w, fpp, s, n, q)
    ensures RelaxedTo(w, fpp, t, n, q)
  {
  }

  lemma GrowsTransitive(s: Pool, t: Pool, u: Pool)
    requires s.Shaped() && t.Shaped() && u.Shaped() && Grows(s, t) && Grows(t, u)
    ensures Grows(s, u)
  {
  }
}
