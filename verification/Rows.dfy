/** The rows that items are kept in: written breadth first with running ids, put together again from the last to the
    first. */
module Rows {
  import opened Basics

  /** What one row keeps of an item itself: its type, its count and its attributes. */
  type Content = nat

  /** An item with everything in it. */
  datatype Tree = Tree(content: Content, children: seq<Tree>)

  /** A row: the id of what the item is in, its own id, the item. */
  datatype Row = Row(pid: nat, sid: nat, content: Content)

  /** The ids of the places a player has, be it the slots of the inventory, with one item each, or the depots. */
  datatype Places = Places(first: nat, last: nat, single: bool) {
    predicate Has(p: nat) { first <= p <= last }

    /** Of items put into a place from the last to the first, those that are there then. */
    function Keeps<T>(items: seq<T>): seq<T> {
      if single && |items| > 1 then items[|items|-1..] else items
    }
  }

  const FIRST_ID := 101

  // ---- what rows say

  /** The trees of those rows from a place on that are in p, where trees has the tree of each row. */
  function In(rows: seq<Row>, trees: seq<Tree>, p: nat, from: nat): seq<Tree>
    requires |rows| == |trees| && from <= |rows|
    decreases |rows| - from
  {
    if from == |rows| then []
    else (if rows[from].pid == p then [trees[from]] else []) + In(rows, trees, p, from + 1)
  }

  lemma {:induction false} InAppend(rows: seq<Row>, trees: seq<Tree>, p: nat, from: nat, row: Row, tree: Tree)
    requires |rows| == |trees| && from <= |rows|
    ensures In(rows + [row], trees + [tree], p, from) == In(rows, trees, p, from) + if row.pid == p then [tree] else []
    decreases |rows| - from
  {
    var rows', trees' := rows + [row], trees + [tree];
    if from == |rows| {
      assert In(rows', trees', p, from + 1) == [];
    } else {
      InAppend(rows, trees, p, from + 1, row, tree);
      assert rows'[from] == rows[from] && trees'[from] == trees[from];
    }
  }

  lemma {:induction false} NothingIn(rows: seq<Row>, trees: seq<Tree>, p: nat, from: nat)
    requires |rows| == |trees| && from <= |rows|
    requires forall j :: from <= j < |rows| ==> rows[j].pid != p
    ensures In(rows, trees, p, from) == []
    decreases |rows| - from
  {
    if from < |rows| {
      NothingIn(rows, trees, p, from + 1);
    }
  }

  // ---- saving

  /** The items kept directly in a place. */
  function At(itemList: seq<(nat, Tree)>, p: nat): seq<Tree> {
    if itemList == [] then []
    else At(itemList[..|itemList|-1], p) + if itemList[|itemList|-1].0 == p then [itemList[|itemList|-1].1] else []
  }

  /** Row after row, each with an id of its own and in something that was written before, or in a place. */
  ghost predicate Numbered(rows: seq<Row>, trees: seq<Tree>, places: Places) {
    && |rows| == |trees|
    && (forall i :: 0 <= i < |rows| ==> rows[i].sid == FIRST_ID + i && rows[i].content == trees[i].content)
    && forall i :: 0 <= i < |rows| ==> places.Has(rows[i].pid) || FIRST_ID <= rows[i].pid < rows[i].sid
  }

  /** A container that waits for its items to be written. */
  datatype Block = Block(children: seq<Tree>, id: nat)

  ghost predicate Waits(queue: seq<Block>, id: nat) {
    exists k :: 0 <= k < |queue| && queue[k].id == id
  }

  /** What is in the item with an id has been written, in order; or none of it, if it waits. */
  ghost predicate Unfolded(rows: seq<Row>, trees: seq<Tree>, queue: seq<Block>, i: nat)
    requires |rows| == |trees| && i < |rows|
  {
    In(rows, trees, FIRST_ID + i, 0) == if Waits(queue, FIRST_ID + i) then [] else trees[i].children
  }

  /** All but the item with id current, which is just being unfolded. */
  ghost predicate AllUnfolded(rows: seq<Row>, trees: seq<Tree>, queue: seq<Block>, current: nat)
    requires |rows| == |trees|
  {
    && (forall i {:trigger Unfolded(rows, trees, queue, i)} :: 0 <= i < |rows| && FIRST_ID + i != current ==>
        Unfolded(rows, trees, queue, i))
    && QueueOk(trees, queue, current)
  }

  /** The containers that wait, each once. */
  ghost predicate QueueOk(trees: seq<Tree>, queue: seq<Block>, current: nat) {
    && (forall k :: 0 <= k < |queue| ==> FIRST_ID <= queue[k].id < FIRST_ID + |trees| && queue[k].id != current)
    && (forall k :: 0 <= k < |queue| ==> queue[k].children == trees[queue[k].id - FIRST_ID].children)
    && (forall j, k :: 0 <= j < k < |queue| ==> queue[j].id != queue[k].id)
  }

  /** How many items there are below those of a list, with these. */
  function Weight(trees: seq<Tree>): nat {
    if trees == [] then 0 else Weight(trees[..|trees|-1]) + 1 + Weight(trees[|trees|-1].children)
  }

  function QueueWeight(queue: seq<Block>): nat {
    if queue == [] then 0 else 1 + Weight(queue[0].children) + QueueWeight(queue[1..])
  }

  lemma OneTaken(trees: seq<Tree>, i: nat)
    requires i < |trees|
    ensures trees[..i+1] == trees[..i] + [trees[i]]
    ensures Weight(trees[..i+1]) == Weight(trees[..i]) + 1 + Weight(trees[i].children)
  {
    assert trees[..i+1][..i] == trees[..i];
  }

  lemma {:induction false} QueueWeightAppend(queue: seq<Block>, b: Block)
    ensures QueueWeight(queue + [b]) == QueueWeight(queue) + 1 + Weight(b.children)
  {
    if queue == [] {
      assert ([b])[1..] == [];
    } else {
      assert (queue + [b])[1..] == queue[1..] + [b];
      QueueWeightAppend(queue[1..], b);
    }
  }

  type Holds = Content -> bool

  /** Only containers have items in them. */
  predicate WellFormed(holds: Holds, t: Tree) {
    (t.children != [] ==> holds(t.content)) && forall c :: c in t.children ==> WellFormed(holds, c)
  }

  ghost predicate AllWellFormed(holds: Holds, trees: seq<Tree>) {
    forall t :: t in trees ==> WellFormed(holds, t)
  }

  /** One more row, for an item in p. */
  lemma OneMore(rows: seq<Row>, trees: seq<Tree>, queue: seq<Block>, current: nat, places: Places, p: nat, t: Tree,
                queue': seq<Block>)
    requires Numbered(rows, trees, places) && AllUnfolded(rows, trees, queue, current)
    requires places.last < FIRST_ID && current < FIRST_ID + |rows|
    requires places.Has(p) || (p == current && FIRST_ID <= p)
    requires queue' == queue + [Block(t.children, FIRST_ID + |rows|)] || (queue' == queue && t.children == [])
    ensures var rows', trees' := rows + [Row(p, FIRST_ID + |rows|, t.content)], trees + [t];
      Numbered(rows', trees', places) && AllUnfolded(rows', trees', queue', current)
  {
    var row := Row(p, FIRST_ID + |rows|, t.content);
    var rows', trees' := rows + [row], trees + [t];
    QueueMore(trees, queue, current, t, queue');
    forall i | 0 <= i < |rows'| && FIRST_ID + i != current ensures Unfolded(rows', trees', queue', i) {
      assert i < |rows| ==> Unfolded(rows, trees, queue, i);
      OneUnfolded(rows, trees, queue, p, t, queue', i);
    }
  }

  lemma OneUnfolded(rows: seq<Row>, trees: seq<Tree>, queue: seq<Block>, p: nat, t: Tree, queue': seq<Block>, i: nat)
    requires |rows| == |trees| && i <= |rows| && (i < |rows| ==> Unfolded(rows, trees, queue, i) && p != FIRST_ID + i)
    requires i == |rows| ==> p < FIRST_ID + i && !Waits(queue, FIRST_ID + i) && forall j :: 0 <= j < |rows| ==>
        rows[j].pid != FIRST_ID + i
    requires queue' == queue + [Block(t.children, FIRST_ID + |rows|)] || (queue' == queue && t.children == [])
    ensures Unfolded(rows + [Row(p, FIRST_ID + |rows|, t.content)], trees + [t], queue', i)
  {
    InAppend(rows, trees, FIRST_ID + i, 0, Row(p, FIRST_ID + |rows|, t.content), t);
    if i < |rows| {
      StillWaits(queue, queue', FIRST_ID + i, t.children, FIRST_ID + |rows|);
    } else {
      NothingIn(rows, trees, FIRST_ID + i, 0);
      if queue' != queue {
        assert queue'[|queue|].id == FIRST_ID + i;
      }
    }
  }

  lemma QueueMore(trees: seq<Tree>, queue: seq<Block>, current: nat, t: Tree, queue': seq<Block>)
    requires QueueOk(trees, queue, current) && current < FIRST_ID + |trees|
    requires queue' == queue + [Block(t.children, FIRST_ID + |trees|)] || queue' == queue
    ensures QueueOk(trees + [t], queue', current)
  {
  }

  lemma StillWaits(queue: seq<Block>, queue': seq<Block>, id: nat, children: seq<Tree>, other: nat)
    requires queue' == queue || queue' == queue + [Block(children, other)]
    requires id != other
    ensures Waits(queue', id) <==> Waits(queue, id)
  {
    if Waits(queue, id) {
      var k :| 0 <= k < |queue| && queue[k].id == id;
      assert queue'[k].id == id;
    }
  }

  /** What is kept in the places themselves. */
  ghost predicate Placed(rows: seq<Row>, trees: seq<Tree>, places: Places, itemList: seq<(nat, Tree)>)
    requires |rows| == |trees|
  {
    forall p {:trigger In(rows, trees, p, 0)} :: places.Has(p) ==> In(rows, trees, p, 0) == At(itemList, p)
  }

  lemma OnePlaced(rows: seq<Row>, trees: seq<Tree>, places: Places, itemList: seq<(nat, Tree)>, row: Row, t: Tree,
                  itemList': seq<(nat, Tree)>)
    requires |rows| == |trees| && Placed(rows, trees, places, itemList)
    requires itemList' == itemList + [(row.pid, t)] || (itemList' == itemList && !places.Has(row.pid))
    ensures Placed(rows + [row], trees + [t], places, itemList')
  {
    forall p | places.Has(p) ensures In(rows + [row], trees + [t], p, 0) == At(itemList', p) {
      InAppend(rows, trees, p, 0, row, t);
      if itemList' != itemList {
        assert itemList'[..|itemList'|-1] == itemList;
      }
    }
  }

  /** What has been written when everything has: the trees of the rows are nested as the rows say. */
  ghost predicate Saved(rows: seq<Row>, trees: seq<Tree>, places: Places, itemList: seq<(nat, Tree)>) {
    && Numbered(rows, trees, places) && Placed(rows, trees, places, itemList)
    && forall i {:trigger trees[i]} :: 0 <= i < |rows| ==> In(rows, trees, FIRST_ID + i, 0) == trees[i].children
  }

  /** Writes the row of an item; a container then waits for its items to be written. */
  method AddRow(rows: seq<Row>, ghost trees: seq<Tree>, queue: seq<Block>, p: nat, t: Tree, holds: Holds,
                ghost current: nat, ghost places: Places)
    returns (rows': seq<Row>, ghost trees': seq<Tree>, queue': seq<Block>)
    requires WellFormed(holds, t) && AllWellFormed(holds, trees)
    requires Numbered(rows, trees, places) && AllUnfolded(rows, trees, queue, current)
    requires places.last < FIRST_ID && current < FIRST_ID + |rows|
    requires places.Has(p) || (p == current && FIRST_ID <= p)
    ensures AllWellFormed(holds, trees')
    ensures QueueWeight(queue') <= QueueWeight(queue) + 1 + Weight(t.children)
    ensures trees' == trees + [t] && rows' == rows + [Row(p, FIRST_ID + |rows|, t.content)]
    ensures queue' == if holds(t.content) then queue + [Block(t.children, FIRST_ID + |rows|)] else queue
    ensures Numbered(rows', trees', places) && AllUnfolded(rows', trees', queue', current)
  {
    var runningId := FIRST_ID + |rows|;
    rows', trees', queue' := rows + [Row(p, runningId, t.content)], trees + [t], queue;
    if holds(t.content) {
      queue' := queue' + [Block(t.children, runningId)];
    }
    QueueWeightAppend(queue, Block(t.children, runningId));
    OneMore(rows, trees, queue, current, places, p, t, queue');
  }

  /** Writes the items of one container that waits. */
  method AddChildren(rows: seq<Row>, ghost trees: seq<Tree>, queue: seq<Block>, cb: Block, holds: Holds,
                     ghost places: Places, ghost itemList: seq<(nat, Tree)>)
    returns (rows': seq<Row>, ghost trees': seq<Tree>, queue': seq<Block>)
    requires AllWellFormed(holds, cb.children) && AllWellFormed(holds, trees) && Numbered(rows, trees, places)
    requires AllUnfolded(rows, trees, queue, cb.id)
    requires Placed(rows, trees, places, itemList) && places.last < FIRST_ID
    requires FIRST_ID <= cb.id < FIRST_ID + |rows| && In(rows, trees, cb.id, 0) == []
    ensures Numbered(rows', trees', places) && AllUnfolded(rows', trees', queue', cb.id)
    ensures Placed(rows', trees', places, itemList)
    ensures rows <= rows' && trees <= trees' && In(rows', trees', cb.id, 0) == cb.children
    ensures QueueWeight(queue') <= QueueWeight(queue) + Weight(cb.children)
    ensures AllWellFormed(holds, trees')
  {
    rows', trees', queue' := rows, trees, queue;
    for i := 0 to |cb.children|
      invariant Numbered(rows', trees', places) && AllUnfolded(rows', trees', queue', cb.id)
          && Placed(rows', trees', places, itemList)
      invariant rows <= rows' && trees <= trees' && In(rows', trees', cb.id, 0) == cb.children[..i]
      invariant QueueWeight(queue') <= QueueWeight(queue) + Weight(cb.children[..i])
      invariant AllWellFormed(holds, trees')
    {
      var item := cb.children[i];
      OneTaken(cb.children, i);
      ghost var rows0, trees0 := rows', trees';
      ghost var row := Row(cb.id, FIRST_ID + |rows'|, item.content);
      InAppend(rows', trees', cb.id, 0, row, item);
      OnePlaced(rows', trees', places, itemList, row, item, itemList);
      rows', trees', queue' := AddRow(rows', trees', queue', cb.id, item, holds, cb.id, places);
      assert rows' == rows0 + [row] && trees' == trees0 + [item];
    }
  }

  /** The first container that waits is taken from the queue, to be unfolded. */
  lemma {:induction false} Popped(rows: seq<Row>, trees: seq<Tree>, queue: seq<Block>)
    requires |rows| == |trees| && AllUnfolded(rows, trees, queue, 0) && queue != []
    ensures AllUnfolded(rows, trees, queue[1..], queue[0].id) && In(rows, trees, queue[0].id, 0) == []
  {
    var id := queue[0].id;
    QueuePopped(trees, queue, id);
    assert Unfolded(rows, trees, queue, id - FIRST_ID);
    forall i | 0 <= i < |rows| && FIRST_ID + i != id ensures Unfolded(rows, trees, queue[1..], i) {
      assert Unfolded(rows, trees, queue, i);
      QueuePopped(trees, queue, FIRST_ID + i);
    }
  }

  lemma QueuePopped(trees: seq<Tree>, queue: seq<Block>, id: nat)
    requires QueueOk(trees, queue, 0) && queue != []
    ensures QueueOk(trees, queue[1..], queue[0].id)
    ensures Waits(queue, id) <==> id == queue[0].id || Waits(queue[1..], id)
  {
    assert forall k :: 0 <= k < |queue| - 1 ==> queue[1..][k] == queue[k+1];
    if Waits(queue, id) {
      var k :| 0 <= k < |queue| && queue[k].id == id;
      assert k > 0 ==> queue[1..][k-1].id == id;
    }
    if Waits(queue[1..], id) {
      var k :| 0 <= k < |queue[1..]| && queue[1..][k].id == id;
      assert queue[k+1].id == id;
    }
  }

  /** A container is unfolded. */
  lemma {:induction false} Done(rows: seq<Row>, trees: seq<Tree>, queue: seq<Block>, id: nat)
    requires |rows| == |trees| && AllUnfolded(rows, trees, queue, id) && FIRST_ID <= id < FIRST_ID + |rows|
    requires In(rows, trees, id, 0) == trees[id - FIRST_ID].children
    ensures AllUnfolded(rows, trees, queue, 0)
  {
    assert !Waits(queue, id);
  }

  /** Writes the items kept in the places themselves. */
  method AddPlaced(itemList: seq<(nat, Tree)>, holds: Holds, ghost places: Places)
    returns (rows: seq<Row>, ghost trees: seq<Tree>, queue: seq<Block>)
    requires places.last < FIRST_ID
    requires forall e :: e in itemList ==> places.Has(e.0) && WellFormed(holds, e.1)
    ensures Numbered(rows, trees, places) && AllUnfolded(rows, trees, queue, 0) && Placed(rows, trees, places, itemList)
    ensures AllWellFormed(holds, trees)
  {
    rows, trees, queue := [], [], [];
    for i := 0 to |itemList|
      invariant Numbered(rows, trees, places) && AllUnfolded(rows, trees, queue, 0)
          && Placed(rows, trees, places, itemList[..i])
      invariant AllWellFormed(holds, trees)
    {
      var (pid, item) := itemList[i];
      assert itemList[i] in itemList;
      OnePlaced(rows, trees, places, itemList[..i], Row(pid, FIRST_ID + |rows|, item.content), item, itemList[..i+1]);
      rows, trees, queue := AddRow(rows, trees, queue, pid, item, holds, 0, places);
    }
    assert itemList[..|itemList|] == itemList;
  }

  /** The item of a row with everything in it, by the rows alone: what is in it comes after it. */
  function TreeOf(rows: seq<Row>, i: nat): Tree
    requires i < |rows|
    decreases |rows| - i, 0
  {
    Tree(rows[i].content, TreesIn(rows, rows[i].sid, i + 1))
  }

  /** The items in p, by the rows alone. */
  function TreesIn(rows: seq<Row>, p: nat, from: nat): seq<Tree>
    requires from <= |rows|
    decreases |rows| - from, 1
  {
    if from == |rows| then []
    else (if rows[from].pid == p then [TreeOf(rows, from)] else []) + TreesIn(rows, p, from + 1)
  }

  lemma {:induction false} NoneBefore(rows: seq<Row>, trees: seq<Tree>, p: nat, from: nat)
    requires |rows| == |trees| && from <= |rows|
    requires forall j :: 0 <= j < from ==> rows[j].pid != p
    ensures In(rows, trees, p, from) == In(rows, trees, p, 0)
    decreases from
  {
    if from > 0 {
      NoneBefore(rows, trees, p, from - 1);
    }
  }

  /** The rows alone tell the trees: nothing else is needed to read them. */
  lemma {:induction false} RowsTellTrees(rows: seq<Row>, trees: seq<Tree>, places: Places, p: nat, from: nat)
    requires Numbered(rows, trees, places) && places.last < FIRST_ID && from <= |rows|
    requires forall i {:trigger trees[i]} :: 0 <= i < |rows| ==> In(rows, trees, FIRST_ID + i, 0) == trees[i].children
    ensures TreesIn(rows, p, from) == In(rows, trees, p, from)
    decreases |rows| - from
  {
    if from < |rows| {
      RowsTellTrees(rows, trees, places, p, from + 1);
      var sid := FIRST_ID + from;
      RowsTellTrees(rows, trees, places, sid, from + 1);
      NoneBefore(rows, trees, sid, from + 1);
      assert trees[from].children == In(rows, trees, sid, 0);
    }
  }

  /** Writes items and everything in them, breadth first. */
  method SaveItems(itemList: seq<(nat, Tree)>, holds: Holds, ghost places: Places)
    returns (rows: seq<Row>, ghost trees: seq<Tree>)
    requires places.last < FIRST_ID
    requires forall e :: e in itemList ==> places.Has(e.0) && WellFormed(holds, e.1)
    ensures Saved(rows, trees, places, itemList) && AllWellFormed(holds, trees)
    ensures forall p {:trigger TreesIn(rows, p, 0)} :: places.Has(p) ==> TreesIn(rows, p, 0) == At(itemList, p)
  {
    var queue;
    rows, trees, queue := AddPlaced(itemList, holds, places);
    while queue != []
      invariant Numbered(rows, trees, places) && AllUnfolded(rows, trees, queue, 0)
          && Placed(rows, trees, places, itemList)
      invariant AllWellFormed(holds, trees)
      decreases QueueWeight(queue)
    {
      rows, trees, queue := UnfoldFirst(rows, trees, queue, holds, places, itemList);
    }
    AllDone(rows, trees);
    forall p | places.Has(p) ensures TreesIn(rows, p, 0) == At(itemList, p) {
      RowsTellTrees(rows, trees, places, p, 0);
      assert In(rows, trees, p, 0) == At(itemList, p);
    }
  }

  lemma {:induction false} AllDone(rows: seq<Row>, trees: seq<Tree>)
    requires |rows| == |trees| && AllUnfolded(rows, trees, [], 0)
    ensures forall i {:trigger trees[i]} :: 0 <= i < |rows| ==> In(rows, trees, FIRST_ID + i, 0) == trees[i].children
  {
    forall i | 0 <= i < |rows| ensures In(rows, trees, FIRST_ID + i, 0) == trees[i].children {
      assert Unfolded(rows, trees, [], i);
    }
  }

  /** Takes the first container from the queue and writes its items. */
  method UnfoldFirst(rows: seq<Row>, ghost trees: seq<Tree>, queue: seq<Block>, holds: Holds, ghost places: Places,
                     ghost itemList: seq<(nat, Tree)>)
    returns (rows': seq<Row>, ghost trees': seq<Tree>, queue': seq<Block>)
    requires places.last < FIRST_ID && queue != [] && AllWellFormed(holds, trees)
    requires Numbered(rows, trees, places) && AllUnfolded(rows, trees, queue, 0)
    requires Placed(rows, trees, places, itemList)
    ensures Numbered(rows', trees', places) && AllUnfolded(rows', trees', queue', 0)
    ensures Placed(rows', trees', places, itemList)
    ensures AllWellFormed(holds, trees') && QueueWeight(queue') < QueueWeight(queue)
  {
    var cb := queue[0];
    Popped(rows, trees, queue);
    ContentWellFormed(holds, trees, cb.id - FIRST_ID);
    rows', trees', queue' := AddChildren(rows, trees, queue[1..], cb, holds, places, itemList);
    assert trees'[cb.id - FIRST_ID] == trees[cb.id - FIRST_ID];
    Done(rows', trees', queue', cb.id);
  }

  lemma ContentWellFormed(holds: Holds, trees: seq<Tree>, i: nat)
    requires AllWellFormed(holds, trees) && i < |trees|
    ensures AllWellFormed(holds, trees[i].children)
  {
    assert trees[i] in trees;
  }

  // ---- loading

  class Node {
    const content: Content
    var itemlist: seq<Node>

    constructor (content: Content)
      ensures this.content == content && itemlist == []
    {
      this.content, itemlist := content, [];
    }
  }

  type ItemMap = map<nat, Node>

  /** The table of a player, by id; ids are there once. */
  ghost predicate Ascending(rows: seq<Row>) {
    forall i, j :: 0 <= i < j < |rows| ==> rows[i].sid < rows[j].sid
  }

  /** The items that were made of those rows from a place on that are in p. */
  function Picked(rows: seq<Row>, itemMap: ItemMap, p: nat, from: nat): seq<Node>
    requires from <= |rows|
    decreases |rows| - from
  {
    if from == |rows| then []
    else
      (if rows[from].pid == p && rows[from].sid in itemMap then [itemMap[rows[from].sid]] else [])
      + Picked(rows, itemMap, p, from + 1)
  }

  ghost predicate HasRow(rows: seq<Row>, sid: nat, content: Content) {
    exists i :: 0 <= i < |rows| && rows[i].sid == sid && rows[i].content == content
  }

  /** For each row whose content can be made, an item of its own. */
  ghost predicate Made(rows: seq<Row>, itemMap: ItemMap, makes: Content -> bool, n: nat)
    requires n <= |rows|
  {
    && (forall sid {:trigger itemMap[sid]} :: sid in itemMap ==> HasRow(rows[..n], sid, itemMap[sid].content))
    && (forall i :: 0 <= i < n ==> (makes(rows[i].content) <==> rows[i].sid in itemMap))
    && (forall a, b {:trigger itemMap[a], itemMap[b]} :: a in itemMap && b in itemMap && a != b ==>
        itemMap[a] != itemMap[b])
  }

  lemma RowsRemain(rows: seq<Row>, n: nat)
    requires n < |rows|
    ensures HasRow(rows[..n+1], rows[n].sid, rows[n].content)
    ensures forall sid, c {:trigger HasRow(rows[..n+1], sid, c)} :: HasRow(rows[..n], sid, c) ==>
        HasRow(rows[..n+1], sid, c)
  {
    assert rows[..n+1][n] == rows[n];
    forall sid, c | HasRow(rows[..n], sid, c) ensures HasRow(rows[..n+1], sid, c) {
      var i :| 0 <= i < n && rows[..n][i].sid == sid && rows[..n][i].content == c;
      assert rows[..n+1][i] == rows[i];
    }
  }

  method LoadItems(rows: seq<Row>, makes: Content -> bool) returns (itemMap: ItemMap)
    requires Ascending(rows)
    ensures Made(rows, itemMap, makes, |rows|)
    ensures forall sid {:trigger itemMap[sid]} :: sid in itemMap ==> fresh(itemMap[sid]) && itemMap[sid].itemlist == []
  {
    itemMap := map[];
    for i := 0 to |rows|
      invariant Made(rows, itemMap, makes, i)
      invariant forall sid {:trigger itemMap[sid]} :: sid in itemMap ==>
          fresh(itemMap[sid]) && itemMap[sid].itemlist == []
    {
      var row := rows[i];
      if makes(row.content) {
        var item := new Node(row.content);
        itemMap := itemMap[row.sid := item];
      }
      RowsRemain(rows, i);
    }
  }

  /** An item has in it what the rows from k on say, if it is a container and its id is no place. */
  ghost predicate HasInIt(rows: seq<Row>, itemMap: ItemMap, holds: Holds, places: Places, sid: nat, k: nat)
    requires k <= |rows| && sid in itemMap
    reads itemMap[sid]
  {
    itemMap[sid].itemlist ==
      if holds(itemMap[sid].content) && !places.Has(sid) then Picked(rows, itemMap, sid, k) else []
  }

  /** Every item has in it what the rows from k on say, and so has every place. */
  ghost predicate Linked(rows: seq<Row>, itemMap: ItemMap, placed: map<nat, seq<Node>>, holds: Holds, places: Places,
                         k: nat)
    requires k <= |rows|
    reads itemMap.Values
  {
    && (forall sid {:trigger HasInIt(rows, itemMap, holds, places, sid, k)} :: sid in itemMap ==>
        HasInIt(rows, itemMap, holds, places, sid, k))
    && InPlaces(rows, itemMap, placed, places, k)
  }

  ghost predicate InPlaces(rows: seq<Row>, itemMap: ItemMap, placed: map<nat, seq<Node>>, places: Places, k: nat)
    requires k <= |rows|
  {
    && (forall p {:trigger p in placed} :: p in placed <==> places.Has(p))
    && (forall p {:trigger InPlace(rows, itemMap, placed, places, p, k)} :: places.Has(p) ==>
        InPlace(rows, itemMap, placed, places, p, k))
  }

  ghost predicate InPlace(rows: seq<Row>, itemMap: ItemMap, placed: map<nat, seq<Node>>, places: Places, p: nat, k: nat)
    requires k <= |rows|
  {
    p in placed && placed[p] == places.Keeps(Picked(rows, itemMap, p, k))
  }

  /** The places with the item of one more row. */
  function PutInPlace(placed: map<nat, seq<Node>>, places: Places, pid: nat, item: Node): map<nat, seq<Node>> {
    if pid in placed && (!places.single || placed[pid] == []) then placed[pid := [item] + placed[pid]] else placed
  }

  lemma OneMoreKept(places: Places, item: Node, items: seq<Node>)
    ensures places.Keeps([item] + items)
      == if !places.single || places.Keeps(items) == [] then [item] + places.Keeps(items) else places.Keeps(items)
  {
  }

  lemma PlacesFollow(rows: seq<Row>, itemMap: ItemMap, placed: map<nat, seq<Node>>, places: Places, k: nat)
    requires k < |rows| && InPlaces(rows, itemMap, placed, places, k + 1)
    ensures !(rows[k].sid in itemMap && places.Has(rows[k].pid)) ==> InPlaces(rows, itemMap, placed, places, k)
    ensures rows[k].sid in itemMap && places.Has(rows[k].pid) ==>
      InPlaces(rows, itemMap, PutInPlace(placed, places, rows[k].pid, itemMap[rows[k].sid]), places, k)
  {
    var pid := rows[k].pid;
    if rows[k].sid in itemMap && places.Has(pid) {
      var item := itemMap[rows[k].sid];
      var placed' := PutInPlace(placed, places, pid, item);
      OneMoreKept(places, item, Picked(rows, itemMap, pid, k + 1));
      forall p | places.Has(p) ensures InPlace(rows, itemMap, placed', places, p, k) {
        assert InPlace(rows, itemMap, placed, places, p, k + 1);
      }
    } else {
      forall p | places.Has(p) ensures InPlace(rows, itemMap, placed, places, p, k) {
        assert InPlace(rows, itemMap, placed, places, p, k + 1);
      }
    }
  }

  /** Puts the item of a row before the others in what it is in, if that is there and can hold it. */
  method LinkRow(rows: seq<Row>, itemMap: ItemMap, placed: map<nat, seq<Node>>, holds: Holds, places: Places, k: nat,
                 ghost makes: Content -> bool)
    returns (placed': map<nat, seq<Node>>)
    requires k < |rows| && Made(rows, itemMap, makes, |rows|) && Linked(rows, itemMap, placed, holds, places, k + 1)
    modifies if rows[k].pid in itemMap then {itemMap[rows[k].pid]} else {}
    ensures Linked(rows, itemMap, placed', holds, places, k)
  {
    PlacesFollow(rows, itemMap, placed, places, k);
    var pid := rows[k].pid;
    placed' := placed;
    if rows[k].sid in itemMap {
      var item := itemMap[rows[k].sid];
      if places.Has(pid) {
        placed' := PutInPlace(placed, places, pid, item);
      } else if pid in itemMap {
        var container := itemMap[pid];
        if holds(container.content) {
          container.itemlist := [item] + container.itemlist;
        }
      }
    }
    forall sid | sid in itemMap ensures HasInIt(rows, itemMap, holds, places, sid, k) {
      assert old(HasInIt(rows, itemMap, holds, places, sid, k + 1));
      assert sid != pid && pid in itemMap ==> itemMap[sid] != itemMap[pid];
    }
  }

  method EmptyPlaces(places: Places) returns (placed: map<nat, seq<Node>>)
    ensures forall p {:trigger p in placed} :: p in placed <==> places.Has(p)
    ensures forall p {:trigger placed[p]} :: p in placed ==> placed[p] == []
  {
    placed := map[];
    var p := places.first;
    while p <= places.last
      invariant forall q {:trigger q in placed} :: q in placed <==> places.first <= q < p && q <= places.last
      invariant forall q {:trigger placed[q]} :: q in placed ==> placed[q] == []
      decreases places.last + 1 - p
    {
      placed := placed[p := []];
      p := p + 1;
    }
  }

  /** Makes the items of a player and puts each before the others in what it is in, the last row first. */
  method LoadPlayer(rows: seq<Row>, holds: Holds, makes: Content -> bool, places: Places)
    returns (itemMap: ItemMap, placed: map<nat, seq<Node>>)
    requires Ascending(rows)
    ensures Made(rows, itemMap, makes, |rows|) && Linked(rows, itemMap, placed, holds, places, 0)
  {
    itemMap := LoadItems(rows, makes);
    placed := EmptyPlaces(places);
    forall p | places.Has(p) ensures InPlace(rows, itemMap, placed, places, p, |rows|) {
      assert placed[p] == [];
    }
    forall sid | sid in itemMap ensures HasInIt(rows, itemMap, holds, places, sid, |rows|) {
      assert itemMap[sid].itemlist == [];
    }
    placed := LinkRows(rows, itemMap, placed, holds, places, makes);
  }

  method LinkRows(rows: seq<Row>, itemMap: ItemMap, empty: map<nat, seq<Node>>, holds: Holds, places: Places,
                  ghost makes: Content -> bool)
    returns (placed: map<nat, seq<Node>>)
    requires Made(rows, itemMap, makes, |rows|) && Linked(rows, itemMap, empty, holds, places, |rows|)
    modifies itemMap.Values
    ensures Linked(rows, itemMap, placed, holds, places, 0)
  {
    placed := empty;
    var k := |rows|;
    while k > 0
      invariant 0 <= k <= |rows| && Linked(rows, itemMap, placed, holds, places, k)
    {
      k := k - 1;
      placed := LinkRow(rows, itemMap, placed, holds, places, k, makes);
    }
  }

  // ---- what is loaded is what was saved

  /** An item in memory that is a tree. */
  ghost predicate Is(n: Node, t: Tree, nodes: set<Node>)
    reads nodes
    decreases t
  {
    && n in nodes && n.content == t.content && |n.itemlist| == |t.children|
    && forall k :: 0 <= k < |t.children| ==> Is(n.itemlist[k], t.children[k], nodes)
  }

  lemma {:induction false} PickedAt(rows: seq<Row>, trees: seq<Tree>, itemMap: ItemMap, p: nat, from: nat, m: nat)
    returns (j: nat)
    requires |rows| == |trees| && from <= |rows| && m < |In(rows, trees, p, from)|
    requires forall i :: 0 <= i < |rows| ==> rows[i].sid in itemMap
    ensures j < |rows| && |Picked(rows, itemMap, p, from)| == |In(rows, trees, p, from)|
    ensures Picked(rows, itemMap, p, from)[m] == itemMap[rows[j].sid] && In(rows, trees, p, from)[m] == trees[j]
    decreases |rows| - from
  {
    SameNumber(rows, trees, itemMap, p, from);
    if rows[from].pid == p {
      if m == 0 {
        j := from;
      } else {
        j := PickedAt(rows, trees, itemMap, p, from + 1, m - 1);
      }
    } else {
      j := PickedAt(rows, trees, itemMap, p, from + 1, m);
    }
  }

  lemma {:induction false} SameNumber(rows: seq<Row>, trees: seq<Tree>, itemMap: ItemMap, p: nat, from: nat)
    requires |rows| == |trees| && from <= |rows|
    requires forall i :: 0 <= i < |rows| ==> rows[i].sid in itemMap
    ensures |Picked(rows, itemMap, p, from)| == |In(rows, trees, p, from)|
    decreases |rows| - from
  {
    if from < |rows| {
      SameNumber(rows, trees, itemMap, p, from + 1);
    }
  }

  lemma {:induction false} ListIs(rows: seq<Row>, trees: seq<Tree>, itemList: seq<(nat, Tree)>, itemMap: ItemMap,
               placed: map<nat, seq<Node>>, holds: Holds, makes: Content -> bool, places: Places, i: nat)
    requires places.last < FIRST_ID && Saved(rows, trees, places, itemList) && AllWellFormed(holds, trees)
    requires Made(rows, itemMap, makes, |rows|) && Linked(rows, itemMap, placed, holds, places, 0)
    requires forall j :: 0 <= j < |rows| ==> makes(rows[j].content)
    requires i < |rows|
    ensures var sid := FIRST_ID + i;
      && sid in itemMap && itemMap[sid].content == trees[i].content
      && In(rows, trees, sid, 0) == trees[i].children
      && itemMap[sid].itemlist == Picked(rows, itemMap, sid, 0)
      && |itemMap[sid].itemlist| == |trees[i].children|
  {
    var sid := FIRST_ID + i;
    assert rows[i].sid == sid && sid in itemMap;
    assert HasRow(rows[..|rows|], sid, itemMap[sid].content);
    assert HasInIt(rows, itemMap, holds, places, sid, 0);
    assert trees[i] in trees && WellFormed(holds, trees[i]);
    assert In(rows, trees, sid, 0) == trees[i].children;
    SameNumber(rows, trees, itemMap, sid, 0);
  }

  /** Each item that was loaded is the one that was saved with its id. */
  lemma {:induction false} RowIs(rows: seq<Row>, trees: seq<Tree>, itemList: seq<(nat, Tree)>, itemMap: ItemMap,
                                 placed: map<nat, seq<Node>>, holds: Holds, makes: Content -> bool, places: Places,
                                     i: nat)
    requires places.last < FIRST_ID && Saved(rows, trees, places, itemList) && AllWellFormed(holds, trees)
    requires Made(rows, itemMap, makes, |rows|) && Linked(rows, itemMap, placed, holds, places, 0)
    requires forall j :: 0 <= j < |rows| ==> makes(rows[j].content)
    requires i < |rows|
    ensures FIRST_ID + i in itemMap && Is(itemMap[FIRST_ID + i], trees[i], itemMap.Values)
    decreases trees[i]
  {
    var sid := FIRST_ID + i;
    ListIs(rows, trees, itemList, itemMap, placed, holds, makes, places, i);
    forall m | 0 <= m < |trees[i].children| ensures Is(itemMap[sid].itemlist[m], trees[i].children[m], itemMap.Values) {
      var j := PickedAt(rows, trees, itemMap, sid, 0, m);
      assert rows[j].sid == FIRST_ID + j;
      RowIs(rows, trees, itemList, itemMap, placed, holds, makes, places, j);
    }
  }

  /** What is loaded from the rows of a player is what was saved, place by place, in order, with everything in it. */
  lemma {:induction false} LoadedIsSaved(rows: seq<Row>, trees: seq<Tree>, itemList: seq<(nat, Tree)>, itemMap: ItemMap,
                      placed: map<nat, seq<Node>>, holds: Holds, makes: Content -> bool, places: Places)
    requires places.last < FIRST_ID && Saved(rows, trees, places, itemList) && AllWellFormed(holds, trees)
    requires Made(rows, itemMap, makes, |rows|) && Linked(rows, itemMap, placed, holds, places, 0)
    requires forall j :: 0 <= j < |rows| ==> makes(rows[j].content)
    requires places.single ==> forall p {:trigger At(itemList, p)} :: places.Has(p) ==> |At(itemList, p)| <= 1
    ensures forall p :: places.Has(p) ==> p in placed && |placed[p]| == |At(itemList, p)|
    ensures forall p, m :: places.Has(p) && 0 <= m < |placed[p]| ==>
        Is(placed[p][m], At(itemList, p)[m], itemMap.Values)
  {
    forall i | 0 <= i < |rows| ensures rows[i].sid in itemMap {
    }
    forall p | places.Has(p) ensures p in placed && |placed[p]| == |At(itemList, p)| {
      assert In(rows, trees, p, 0) == At(itemList, p);
      assert InPlace(rows, itemMap, placed, places, p, 0);
      SameNumber(rows, trees, itemMap, p, 0);
    }
    forall p, m | places.Has(p) && 0 <= m < |placed[p]| ensures Is(placed[p][m], At(itemList, p)[m], itemMap.Values) {
      assert InPlace(rows, itemMap, placed, places, p, 0);
      var j := PickedAt(rows, trees, itemMap, p, 0, m);
      assert rows[j].sid == FIRST_ID + j;
      RowIs(rows, trees, itemList, itemMap, placed, holds, makes, places, j);
    }
  }

  /** Rows that were saved make a table that can be loaded; no id of theirs is that of a place. */
  lemma SavedIsTable(rows: seq<Row>, trees: seq<Tree>, places: Places)
    requires Numbered(rows, trees, places) && places.last < FIRST_ID
    ensures Ascending(rows) && forall i :: 0 <= i < |rows| ==> !places.Has(rows[i].sid)
  {
  }
}
