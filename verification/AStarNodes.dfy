/** The bounded node pool of the path search. */
module AStarNodes {
  import opened Basics
  import opened PathWorld

  const MAX_NODES := 512
  const INT32_MAX := 0x7FFF_FFFF

  /** parent is an index into the pool, -1 for the start node. */
  datatype Node = Node(parent: int, pos: Pos, f: int)

  /** The used part of the pool as a value. */
  datatype Pool = Pool(nodes: seq<Node>, open: seq<bool>, table: map<Pos, nat>, closedNodes: int) {
    ghost predicate Shaped() { |nodes| == |open| <= MAX_NODES }

    /** The pool after the f and the parent of node i changed. */
    function Reparent(i: nat, parent: int, f: int): Pool
      requires i < |nodes|
    {
      this.(nodes := nodes[i := nodes[i].(parent := parent, f := f)])
    }

    function Append(parent: int, p: Pos, f: int): Pool {
      Pool(nodes + [Node(parent, p, f)], open + [true], table[p := |nodes|], closedNodes)
    }

    /** Puts node i back among the open ones; nothing changes if it is open already. */
    function Reopen(i: nat): Pool
      requires i < |open|
    {
      if open[i] then this else this.(open := open[i := true], closedNodes := closedNodes - 1)
    }

    function Close(i: nat): Pool
      requires i < |open|
    {
      this.(open := open[i := false], closedNodes := closedNodes + 1)
    }
  }

  function ClosedCount(open: seq<bool>): nat {
    if open == [] then 0
    else ClosedCount(open[..|open|-1]) + (if open[|open|-1] then 0 else 1)
  }

  lemma {:induction false} ClosedCountUpdate(open: seq<bool>, i: nat, now: bool)
    requires i < |open|
    ensures ClosedCount(open[i := now]) == ClosedCount(open) + (if open[i] then 1 else 0) - (if now then 1 else 0)
  {
    var n := |open| - 1;
    var open' := open[i := now];
    if i == n {
      assert open'[..n] == open[..n];
    } else {
      assert open'[..n] == open[..n][i := now];
      ClosedCountUpdate(open[..n], i, now);
    }
  }

  lemma {:induction false} ClosedCountBound(open: seq<bool>)
    ensures ClosedCount(open) <= |open|
    ensures (exists i :: 0 <= i < |open| && open[i]) ==> ClosedCount(open) < |open|
  {
    if open != [] {
      var n := |open| - 1;
      ClosedCountBound(open[..n]);
      if i :| 0 <= i < |open| && open[i] {
        assert i < n ==> open[..n][i];
      }
    }
  }

  class NodePool {
    const nodes: array<Node>
    const openNodes: array<bool>
    var nodeTable: map<Pos, nat>
    var curNode: nat
    var closedNodes: int

    ghost predicate Valid()
      reads this
    {
      && nodes.Length == openNodes.Length == MAX_NODES
      && curNode <= MAX_NODES
      && forall p :: p in nodeTable ==> nodeTable[p] < curNode
    }

    ghost function View(): (s: Pool)
      reads this, nodes, openNodes
      requires Valid()
      ensures s.Shaped()
    {
      Pool(nodes[..curNode], openNodes[..curNode], nodeTable, closedNodes)
    }

    /** The counter is the number of the closed nodes. */
    ghost predicate Exact()
      reads this, nodes, openNodes
      requires Valid()
    {
      closedNodes == ClosedCount(View().open)
    }

    constructor (p: Pos)
      ensures Valid() && fresh(nodes) && fresh(openNodes)
      ensures View() == Pool([Node(-1, p, 0)], [true], map[p := 0], 0) && Exact()
    {
      nodes := new Node[MAX_NODES](_ => Node(-1, p, 0));
      openNodes := new bool[MAX_NODES](i => i == 0);
      nodeTable := map[p := 0];
      curNode, closedNodes := 1, 0;
    }

    /** Takes the next free node, or answers -1 when the pool is used up. */
    method CreateOpenNode(parent: int, p: Pos, f: int) returns (ret: int)
      requires Valid()
      modifies this, nodes, openNodes
      ensures Valid()
      ensures ret == if |old(View()).nodes| < MAX_NODES then |old(View()).nodes| else -1
      ensures View() == if ret < 0 then old(View()) else old(View()).Append(parent, p, f)
      ensures old(Exact()) ==> Exact()
    {
      if curNode >= MAX_NODES {
        return -1;
      }
      ret := curNode;
      curNode := curNode + 1;
      openNodes[ret] := true;
      nodeTable := nodeTable[p := ret];
      nodes[ret] := Node(parent, p, f);
    }

    /** The open node with the smallest f, the earliest one among equals; -1 if none is open. */
    method GetBestNode() returns (best: int)
      requires Valid()
      requires forall i :: 0 <= i < curNode ==> nodes[i].f < INT32_MAX
      ensures best == -1 ==> forall i :: 0 <= i < curNode ==> !openNodes[i]
      ensures best != -1 ==>
                && 0 <= best < curNode && openNodes[best]
                && (forall i :: 0 <= i < curNode && openNodes[i] ==> nodes[best].f <= nodes[i].f)
                && (forall i :: 0 <= i < best && openNodes[i] ==> nodes[best].f < nodes[i].f)
    {
      best := -1;
      if curNode == 0 {
        return;
      }
      var bestF := INT32_MAX;
      for i := 0 to curNode
        invariant best == -1 ==> bestF == INT32_MAX && forall j :: 0 <= j < i ==> !openNodes[j]
        invariant best != -1 ==>
                    && 0 <= best < i && openNodes[best] && bestF == nodes[best].f
                    && (forall j :: 0 <= j < i && openNodes[j] ==> bestF <= nodes[j].f)
                    && (forall j :: 0 <= j < best && openNodes[j] ==> bestF < nodes[j].f)
      {
        if openNodes[i] && nodes[i].f < bestF {
          bestF := nodes[i].f;
          best := i;
        }
      }
    }

    /** Closes a node; the counter stays exact just when it was open. */
    method CloseNode(i: nat)
      requires Valid() && i < curNode
      modifies this`closedNodes, openNodes
      ensures Valid()
      ensures View() == old(View()).Close(i)
      ensures old(Exact()) ==> (Exact() <==> old(openNodes[i]))
    {
      ClosedCountUpdate(View().open, i, false);
      openNodes[i] := false;
      closedNodes := closedNodes + 1;
    }

    /** Opens a node; an exact counter stays exact. */
    method OpenNode(i: nat)
      requires Valid() && i < curNode
      modifies this`closedNodes, openNodes
      ensures Valid()
      ensures View() == old(View()).Reopen(i)
      ensures old(Exact()) ==> Exact()
    {
      ClosedCountUpdate(View().open, i, true);
      if !openNodes[i] {
        openNodes[i] := true;
        closedNodes := closedNodes - 1;
      }
    }

    /** Gives a node a cheaper f through a new parent and opens it. */
    method Improve(i: nat, parent: int, f: int)
      requires Valid() && i < curNode
      modifies this`closedNodes, nodes, openNodes
      ensures Valid()
      ensures View() == old(View()).Reparent(i, parent, f).Reopen(i)
      ensures old(Exact()) ==> Exact()
    {
      nodes[i] := nodes[i].(parent := parent, f := f);
      OpenNode(i);
    }

    method GetNodeByPosition(p: Pos) returns (i: int)
      requires Valid()
      ensures p in View().table ==> i == View().table[p]
      ensures p !in View().table ==> i == -1
    {
      if p in nodeTable {
        return nodeTable[p];
      }
      return -1;
    }
  }
}
