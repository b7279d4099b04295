/** Where moving items between containers falls short: a container gets too full, and pieces get lost. */
module MoveExamples {
  import opened Basics
  import opened Containers
  import opened ItemMove

  const RUNE := Kind(1, true, false, true, true, true, 0)
  const STONE := Kind(2, false, false, false, true, true, 0)
  const NO_ATTRIBUTES := Attributes(None, map[])

  method NewBag(maxSize: nat, ghost S: set<Item>) returns (bag: Item, ghost S': set<Item>)
    requires ForestOk(S)
    ensures fresh(bag) && S' == S + {bag} && ForestOk(S')
    ensures bag.isContainer && bag.unlocked && !bag.isInbox && bag.maxSize == maxSize
    ensures bag.parent == null && bag.itemlist == [] && bag.kind == STONE
  {
    bag := new Item(true, false, true, maxSize, STONE, 1, NO_ATTRIBUTES);
    JoinForest(S, bag);
    S' := S + {bag};
  }

  /** Puts a new item into a bag, as on loading, whatever room there is. */
  method Load(bag: Item, kind: Kind, count: nat, ghost S: set<Item>) returns (x: Item, ghost S': set<Item>)
    requires ForestOk(S) && bag in S && bag.isContainer && bag.parent == null
    modifies bag`itemlist, S`rank, S`totalWeight
    ensures fresh(x) && S' == S + {x} && ForestOk(S')
    ensures bag.itemlist == [x] + old(bag.itemlist) && x.parent == bag
    ensures x.kind == kind && x.count == count && x.attrs == NO_ATTRIBUTES && !x.isContainer && x.itemlist == []
  {
    x := new Item(false, false, true, 0, kind, count, NO_ATTRIBUTES);
    JoinForest(S, x);
    S' := S + {x};
    AroundWithin(bag, {bag}, S');
    bag.InternalAddThing(x, S');
  }

  /** An outermost bag that is open takes an item in at a place. */
  lemma {:induction false} OpenBagTakesIn(bag: Item, index: int, x: Item, S: set<Item>)
    requires LinksOk(S) && bag in S && x in S && x != bag
    requires bag.unlocked && bag.parent == null && x.kind.pickupable && index != INDEX_WHEREEVER
    ensures Around(bag, S) == {bag} && MayAdd(bag, index, x, NO_FLAGS, S)
  {
    AroundWithin(bag, {bag}, S);
  }

  /** Two bags with a place each; in the one is a stack of runes x, in the other what list has. */
  ghost predicate Ready(from: Item, bag: Item, x: Item, list: seq<Item>, S: set<Item>)
    reads S
  {
    && ForestOk(S) && from in S && bag in S && x in S && from != bag && x !in list && x != from && x != bag
    && S == {from, bag, x} + (set y | y in list)
    && IsBag(from, [x]) && IsBag(bag, list)
    && Loaded(x, from, RUNE, 3)
  }

  ghost predicate IsBag(bag: Item, list: seq<Item>)
    reads bag
  {
    && bag.isContainer && bag.unlocked && !bag.isInbox && bag.maxSize == 1
    && bag.parent == null && bag.kind == STONE && bag.itemlist == list
  }

  ghost predicate Loaded(x: Item, bag: Item, kind: Kind, count: nat)
    reads x
  {
    x.parent == bag && x.kind == kind && x.count == count && x.attrs == NO_ATTRIBUTES && !x.isContainer
        && x.itemlist == []
  }

  method TwoBags() returns (from: Item, bag: Item, x: Item, r: Item, ghost S: set<Item>)
    ensures fresh(S) && Ready(from, bag, x, [r], S) && Loaded(r, bag, RUNE, 5)
  {
    from, S := NewBag(1, {});
    bag, S := NewBag(1, S);
    x, S := Load(from, RUNE, 3, S);
    r, S := Load(bag, RUNE, 5, S);
  }

  method TwoBagsAndStone() returns (from: Item, bag: Item, x: Item, stone: Item, r: Item, ghost S: set<Item>)
    ensures fresh(S) && Ready(from, bag, x, [stone, r], S) && Loaded(r, bag, RUNE, 5) && Loaded(stone, bag, STONE, 1)
  {
    from, bag, x, r, S := TwoBags();
    stone, S := Load(bag, STONE, 1, S);
  }

  lemma {:induction false} OneStackReady(from: Item, bag: Item, x: Item, r: Item, S: set<Item>)
    requires Ready(from, bag, x, [r], S) && Loaded(r, bag, RUNE, 5)
    ensures KindsOk(S) && forall c :: c in S ==> StacksOk(c.itemlist)
    ensures Resolved(bag, 0, x, NO_FLAGS, false, MAP_MAX_LAYERS, S) == (Aim(bag, 0, r), NO_FLAGS)
    ensures MaxCount(bag, 0, x, 3, NO_FLAGS, S) == 95 && CanMove(from, Aim(bag, 0, r), x, 3, NO_FLAGS, null, S)
    ensures Overflows(from, Aim(bag, 0, r), x, 3)
  {
    OpenBagTakesIn(bag, 0, x, S);
    assert Destination(bag, 0, x, NO_FLAGS, false) == Aim(bag, 0, r);
  }

  /** A stack of runes is put into a bag with one place that has one. */
  method RunesOverfill() returns (bag: Item, ghost S: set<Item>)
    ensures ForestOk(S) && bag in S && |bag.itemlist| > bag.maxSize
  {
    var from, r, x;
    from, bag, x, r, S := TwoBags();
    OneStackReady(from, bag, x, r, S);
    ghost var aim := Aim(bag, 0, r);
    ghost var plan := PlanOf(from, aim, x, 3, NO_FLAGS, null, S);
    var ret, moveItem;
    ret, moveItem, S := InternalMoveItem(from, bag, 0, x, 3, NO_FLAGS, false, null, S, aim, NO_FLAGS, plan);
  }

  lemma {:induction false} TwoItemsReady(from: Item, bag: Item, x: Item, stone: Item, r: Item, S: set<Item>)
    requires Ready(from, bag, x, [stone, r], S) && Loaded(r, bag, RUNE, 5) && Loaded(stone, bag, STONE, 1)
    ensures KindsOk(S) && forall c :: c in S ==> StacksOk(c.itemlist)
    ensures Resolved(bag, 0, x, NO_FLAGS, true, MAP_MAX_LAYERS, S) == (Aim(bag, 1, r), NO_FLAGS)
    ensures MaxCount(bag, 1, x, 3, NO_FLAGS, S) == 95 && CanMove(from, Aim(bag, 1, r), x, 3, NO_FLAGS, null, S)
    ensures PiecesIn(bag, S, RUNE) == 5
  {
    OpenBagTakesIn(bag, 1, x, S);
    MayAddAnywhere(bag, 1, x, NO_FLAGS, S);
    assert StackIndex([stone, r], x) == 1;
    assert Destination(bag, 0, x, NO_FLAGS, true) == Aim(bag, 1, r);
    RunesOf(CountsOf(S), stone, r);
  }

  lemma {:induction false} RunesOf(M: Counts, stone: Item, r: Item)
    requires stone in M && r in M && M[stone] == (STONE, 1) && M[r] == (RUNE, 5)
    ensures Pieces(M, [stone, r], RUNE) == 5
  {
    assert Pieces(M, [], RUNE) == 0;
    assert [r][1..] == [] && Pieces(M, [r], RUNE) == 5;
    assert [stone, r][1..] == [r];
  }

  /** With items stacked by themselves, a stack of runes is put where the runes are that a bag has no place for. */
  method RunesGetLost() returns (from: Item, bag: Item, ghost S: set<Item>, ghost o: Outcome)
    ensures ForestOk(S) && from in S && bag in S
    ensures o.taken == 3 && o.lost == 3 && from.itemlist == [] && PiecesIn(bag, S, RUNE) == 5
  {
    var r, stone, x;
    from, bag, x, stone, r, S := TwoBagsAndStone();
    TwoItemsReady(from, bag, x, stone, r, S);
    ghost var aim := Aim(bag, 1, r);
    ghost var plan := PlanOf(from, aim, x, 3, NO_FLAGS, null, S);
    var ret, moveItem;
    ret, moveItem, S := InternalMoveItem(from, bag, 0, x, 3, NO_FLAGS, true, null, S, aim, NO_FLAGS, plan);
    o := plan.outcome;
    assert |from.itemlist| == 0;
  }
}
