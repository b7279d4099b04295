/** The nodes of the quadtree and the two walks down from the root. */
module QuadTree {
  import opened Basics
  import opened QuadKeys

  /** A creature on the map. */
  class Creature {
    const isPlayer: bool
    var x: nat
    var y: nat
    var z: nat
  }

  /** The 8 x 8 tiles of one layer of a leaf; a tile is known by a number. */
  type TileId = nat
  type Floor = seq<seq<Option<TileId>>>

  /** An inner node, or a leaf with its links, floors and creatures.
      key tells where in the tree the node is. */
  class QTreeNode {
    ghost const key: Key
    const leaf: bool
    var child: seq<QTreeNode?>
    var leafS: QTreeNode?
    var leafE: QTreeNode?
    var floors: seq<Option<Floor>>
    var creatureList: seq<Creature>
    var playerList: seq<Creature>

    constructor (ghost key: Key, leaf: bool)
      ensures this.key == key && this.leaf == leaf && child == [null, null, null, null]
      ensures leafS == null && leafE == null && creatureList == [] && playerList == []
      ensures floors == seq(MAP_MAX_LAYERS, _ => None)
    {
      this.key, this.leaf := key, leaf;
      child := [null, null, null, null];
      leafS, leafE := null, null;
      floors := seq(MAP_MAX_LAYERS, _ => None);
      creatureList, playerList := [], [];
    }

    method AddCreature(c: Creature)
      modifies this`creatureList, this`playerList
      ensures creatureList == old(creatureList) + [c]
      ensures playerList == old(playerList) + if c.isPlayer then [c] else []
    {
      creatureList := creatureList + [c];
      if c.isPlayer {
        playerList := playerList + [c];
      }
    }

    /** Takes a creature out of the lists; the order of the others may change. */
    method RemoveCreature(c: Creature)
      requires c in creatureList && Distinct(creatureList)
      requires Distinct(playerList) && (c.isPlayer <==> c in playerList)
      modifies this`creatureList, this`playerList
      ensures Distinct(creatureList) && forall d :: d in creatureList <==> d in old(creatureList) && d != c
      ensures Distinct(playerList) && forall d :: d in playerList <==> d in old(playerList) && d != c
    {
      var i := IndexOf(creatureList, c);
      SwapRemovedIsRemoved(creatureList, i);
      creatureList := SwapRemoved(creatureList, i);
      if c.isPlayer {
        i := IndexOf(playerList, c);
        SwapRemovedIsRemoved(playerList, i);
        playerList := SwapRemoved(playerList, i);
      }
    }

    /** Walks down to the leaf the coordinates lead to; null if there is none. */
    method GetLeaf(x: nat, y: nat, ghost at: map<Key, QTreeNode>) returns (r: QTreeNode?)
      requires TreeOk(at) && key in at && at[key] == this && key.level <= DEPTH
      ensures r == Find(at, LeafKey(key, x, y))
      decreases DEPTH - key.level
    {
      assert NodeOk(at, key);
      if leaf {
        return this;
      }
      var i := ChildIndex(x, y);
      var node := child[i];
      assert node == Find(at, ChildKey(key, i));
      if node == null {
        LeafNeedsNode(at, ChildKey(key, i), Shl(x), Shl(y));
        return null;
      }
      assert NodeOk(at, ChildKey(key, i));
      r := node.GetLeaf(Shl(x), Shl(y), at);
    }

    /** Walks down to the leaf the coordinates lead to and makes the nodes that are wanting. */
    method CreateLeaf(x: nat, y: nat, level: int, ghost at: map<Key, QTreeNode>)
      returns (r: QTreeNode, newLeaf: bool, ghost at': map<Key, QTreeNode>)
      requires TreeOk(at) && key in at && at[key] == this && level == 15 - key.level && key.level <= DEPTH
      modifies at.Values`child
      ensures TreeOk(at') && Extends(at, at', LeafKey(key, x, y))
      ensures LeafKey(key, x, y) in at' && at'[LeafKey(key, x, y)] == r
      ensures newLeaf <==> LeafKey(key, x, y) !in at
      ensures forall k :: k in at' && k !in at ==> fresh(at'[k])
      ensures newLeaf ==>
                && r.leafS == null && r.leafE == null && r.creatureList == [] && r.playerList == []
                && r.floors == seq(MAP_MAX_LAYERS, _ => None)
      decreases DEPTH - key.level
    {
      assert NodeOk(at, key);
      if leaf {
        return this, false, at;
      }
      newLeaf := false;
      var i := ChildIndex(x, y);
      ghost var ck := ChildKey(key, i);
      ghost var at1 := at;
      var node := child[i];
      if node == null {
        LeafNeedsNode(at, ck, Shl(x), Shl(y));
        node, at1 := AddChild(i, level, at);
        newLeaf := level == FLOOR_BITS;
      }
      assert NodeOk(at1, ck);
      var newLeaf';
      r, newLeaf', at' := node.CreateLeaf(Shl(x), Shl(y), level - 1, at1);
      newLeaf := newLeaf || newLeaf';
    }

    /** Makes the missing child i. */
    method AddChild(i: nat, level: int, ghost at: map<Key, QTreeNode>)
      returns (node: QTreeNode, ghost at': map<Key, QTreeNode>)
      requires TreeOk(at) && key in at && at[key] == this && !leaf && level == 15 - key.level
      requires i < 4 && ChildKey(key, i) !in at && |child| == 4
      modifies this`child
      ensures at' == at[ChildKey(key, i) := node] && TreeOk(at') && fresh(node)
      ensures node.leafS == null && node.leafE == null && node.creatureList == [] && node.playerList == []
      ensures node.floors == seq(MAP_MAX_LAYERS, _ => None)
    {
      assert NodeOk(at, key);
      ghost var ck := ChildKey(key, i);
      ChildParent(key, i);
      forall j | 0 <= j < 4
        ensures ChildKey(ck, j) !in at && ChildKey(ck, j) != ck
      {
        NoGrandchild(at, key, i, j);
      }
      node := new QTreeNode(ck, level == FLOOR_BITS);
      at' := at[ck := node];
      child := child[i := node];
      forall k | k in at'
        ensures NodeOk(at', k)
      {
        if k != ck {
          assert old(NodeOk(at, k));
          ChildrenElsewhere(key, k, i);
        }
      }
    }
  }

  /** s without the element at i, whose place the last element takes. */
  function SwapRemoved<T>(s: seq<T>, i: nat): seq<T>
    requires i < |s|
  {
    s[i := s[|s|-1]][..|s|-1]
  }

  lemma SwapRemovedIsRemoved<T>(s: seq<T>, i: nat)
    requires i < |s| && Distinct(s)
    ensures var t := SwapRemoved(s, i);
      Distinct(t) && forall x :: x in t <==> x in s && x != s[i]
  {
    var t := SwapRemoved(s, i);
    forall x | x in s && x != s[i]
      ensures x in t
    {
      var j :| 0 <= j < |s| && s[j] == x;
      assert if j == |s| - 1 then t[i] == x else t[j] == x;
    }
  }

  method IndexOf<T(==)>(s: seq<T>, x: T) returns (i: nat)
    requires x in s
    ensures i < |s| && s[i] == x
  {
    i := 0;
    while s[i] != x
      invariant i < |s| && x !in s[..i]
      decreases |s| - i
    {
      i := i + 1;
    }
  }

  ghost function Find(at: map<Key, QTreeNode>, k: Key): QTreeNode? {
    if k in at then at[k] else null
  }

  /** The node at place k is the one that belongs there. */
  ghost predicate NodeOk(at: map<Key, QTreeNode>, k: Key)
    requires k in at
    reads {at[k]}`child
  {
    var n := at[k];
    && n.key == k
    && k.level <= DEPTH
    && n.leaf == (k.level == DEPTH)
    && |n.child| == 4
    && (k.level < DEPTH ==> forall i :: 0 <= i < 4 ==> n.child[i] == Find(at, ChildKey(k, i)))
    && (k.level > 0 ==> ParentKey(k) in at)
  }

  /** at holds exactly the nodes of the tree. */
  ghost predicate TreeOk(at: map<Key, QTreeNode>)
    reads at.Values`child
  {
    Root() in at && forall k {:trigger NodeOk(at, k)} :: k in at ==> NodeOk(at, k)
  }

  /** at' has the nodes of at, the way to the given leaf, and no other leaf. */
  ghost predicate Extends(at: map<Key, QTreeNode>, at': map<Key, QTreeNode>, leaf: Key) {
    && (forall k :: k in at ==> k in at' && at'[k] == at[k])
    && (forall k :: k in at' && k !in at && k.level == DEPTH ==> k == leaf)
  }

  /** Nothing hangs below a place that is not taken. */
  lemma NoGrandchild(at: map<Key, QTreeNode>, k: Key, i: nat, j: nat)
    requires TreeOk(at) && i < 4 && j < 4 && ChildKey(k, i) !in at
    ensures ChildKey(ChildKey(k, i), j) !in at && ChildKey(ChildKey(k, i), j) != ChildKey(k, i)
  {
    assert ChildKey(ChildKey(k, i), j) in at ==> NodeOk(at, ChildKey(ChildKey(k, i), j));
    ChildParent(ChildKey(k, i), j);
  }

  lemma ChildrenElsewhere(k: Key, k': Key, i: nat)
    requires i < 4
    ensures forall j :: 0 <= j < 4 && (k' != k || j != i) ==> ChildKey(k', j) != ChildKey(k, i)
  {
    ChildParent(k, i);
    forall j | 0 <= j < 4 && (k' != k || j != i)
      ensures ChildKey(k', j) != ChildKey(k, i)
    {
      ChildParent(k', j);
      if k' == k {
        SiblingsDiffer(k, i, j);
      }
    }
  }

  /** A leaf is in the tree only together with every node on the way to it. */
  lemma {:induction false} LeafNeedsNode(at: map<Key, QTreeNode>, k: Key, x: nat, y: nat)
    requires TreeOk(at) && k.level <= DEPTH
    requires k !in at
    ensures LeafKey(k, x, y) !in at
    decreases DEPTH - k.level
  {
    if k.level < DEPTH {
      var i := ChildIndex(x, y);
      ChildParent(k, i);
      assert ChildKey(k, i) in at ==> NodeOk(at, ChildKey(k, i));
      LeafNeedsNode(at, ChildKey(k, i), Shl(x), Shl(y));
    }
  }
}
