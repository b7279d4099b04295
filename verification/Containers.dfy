/** The forest of items and containers: parent pointers, item lists and cached weights. */
module Containers {
  import opened Basics

  const MAX_STACK := 100

  /** The type of an item, as the item table has it.
      subtyped kinds keep fluid or charges, not a count, as their subtype. */
  datatype Kind =
    Kind(id: nat, stackable: bool, subtyped: bool, rune: bool, pickupable: bool, moveable: bool, weight: nat)

  /** The attributes that make two items of one kind differ; one of them may replace the weight of the kind. */
  datatype Attributes = Attributes(weight: Option<nat>, rest: map<string, int>)

  const INDEX_WHEREEVER := -1

  datatype ReturnValue = NoError | NotPossible | CannotPickup | ThisIsImpossible | ContainerNotEnoughRoom
                       | NotMoveable | NotEnoughRoom

  datatype Flags = Flags(noLimit: bool, childIsOwner: bool, ignoreNotMoveable: bool, ignoreAutoStack: bool)

  const NO_FLAGS := Flags(false, false, false, false)

  /** An item; a container is an item that has a list of items. rank grows from a container to its contents. */
  class Item {
    const isContainer: bool
    const isInbox: bool
    const unlocked: bool
    const maxSize: nat
    var kind: Kind
    var count: nat
    var attrs: Attributes
    var parent: Item?
    var itemlist: seq<Item>
    var totalWeight: int
    ghost var rank: nat

    constructor (isContainer: bool, isInbox: bool, unlocked: bool, maxSize: nat, kind: Kind, count: nat,
                 attrs: Attributes)
      ensures this.isContainer == isContainer && this.isInbox == isInbox
      ensures this.unlocked == unlocked && this.maxSize == maxSize
      ensures this.kind == kind && this.count == count && this.attrs == attrs
      ensures parent == null && itemlist == [] && totalWeight == 0
    {
      this.isContainer, this.isInbox, this.unlocked, this.maxSize := isContainer, isInbox, unlocked, maxSize;
      this.kind, this.count, this.attrs := kind, count, attrs;
      parent, itemlist, totalWeight, rank := null, [], 0, 0;
    }

    /** The weight without the contents. */
    function OwnWeight(): nat
      reads this`kind, this`count, this`attrs
    {
      var base := if attrs.weight.Some? then attrs.weight.value else kind.weight;
      if kind.stackable then Times(base, if count < 1 then 1 else count) else base
    }

    function GetWeight(): int
      reads this`kind, this`count, this`attrs, this`totalWeight
    {
      OwnWeight() + totalWeight
    }

    // ---- cached weights

    /** Adds a difference in weight here and in every container around: what was wanting here is wanting no more. */
    method UpdateItemWeight(diff: int, ghost want: map<Item, int>, ghost S: set<Item>)
      requires LinksOk(S) && this in S && isContainer && want.Keys == S
      requires forall x {:trigger Wanting(x, S)} :: x in S ==> Wanting(x, S) == want[x] + if x == this then diff else 0
      modifies S`totalWeight
      ensures forall x {:trigger Wanting(x, S)} :: x in S ==> Wanting(x, S) == want[x]
      ensures forall x :: x in S && x.rank > rank ==> x.totalWeight == old(x.totalWeight)
      decreases rank
    {
      assert LinkOk(this, S);
      AddWeight(diff, want, S);
      if parent != null {
        parent.UpdateItemWeight(diff, want, S);
      }
    }

    /** The difference is accounted for here and now wanting in the container around. */
    method AddWeight(diff: int, ghost want: map<Item, int>, ghost S: set<Item>)
      requires LinksOk(S) && this in S && isContainer && want.Keys == S
      requires forall x {:trigger Wanting(x, S)} :: x in S ==> Wanting(x, S) == want[x] + if x == this then diff else 0
      modifies this`totalWeight
      ensures forall x {:trigger Wanting(x, S)} :: x in S ==> Wanting(x, S) == want[x] + if x == parent then diff else 0
    {
      ghost var W := WeightMap(S);
      ghost var v := W[this] + diff;
      totalWeight := totalWeight + diff;
      assert WeightMap(S) == W[this := v];
      forall x | x in S
        ensures Wanting(x, S) == want[x] + if x == parent then diff else 0
      {
        assert old(Wanting(x, S)) == want[x] + if x == this then diff else 0;
        assert LinkOk(x, S) && LinkOk(this, S);
        SumOfUpdate(W, x.itemlist, this, v);
      }
    }

    // ---- links

    /** Sinks everything that is not around this container, to make room above it. */
    ghost method Sink(k: nat, around: set<Item>, S: set<Item>)
      requires LinksOk(S) && ClosedUpwards(around)
      modifies S`rank
      ensures LinksOk(S)
      ensures forall x :: x in S ==> x.rank == old(x.rank) + if x in around then 0 else k
    {
      forall x | x in S - around {
        x.rank := x.rank + k;
      }
      forall x | x in S
        ensures LinkOk(x, S)
      {
        assert old(LinkOk(x, S));
      }
    }

    /** Puts a loose item at position i of the list. */
    method Attach(item: Item, i: nat, ghost around: set<Item>, ghost S: set<Item>)
      requires LinksOk(S) && this in S && isContainer && item in S && item.parent == null && i <= |itemlist|
      requires this in around && item !in around && ClosedUpwards(around)
      modifies this`itemlist, item`parent, S`rank
      ensures LinksOk(S) && item.parent == this
      ensures itemlist == old(itemlist)[..i] + [item] + old(itemlist)[i..]
    {
      assert LinkOk(this, S) && LinkOk(item, S);
      Sink(rank + 1, around, S);
      item.parent := this;
      itemlist := itemlist[..i] + [item] + itemlist[i..];
      forall x | x in S
        ensures LinkOk(x, S)
      {
        assert old(LinkOk(x, S));
        assert item !in old(x.itemlist);
      }
    }

    /** Takes the item at position i out of the list. */
    method Detach(i: nat, ghost S: set<Item>)
      requires LinksOk(S) && this in S && i < |itemlist|
      modifies this`itemlist, {itemlist[i]}`parent
      ensures LinksOk(S) && old(itemlist[i]).parent == null
      ensures itemlist == old(itemlist)[..i] + old(itemlist)[i+1..]
    {
      assert LinkOk(this, S);
      var item := itemlist[i];
      item.parent := null;
      itemlist := itemlist[..i] + itemlist[i+1..];
      forall x | x in S
        ensures LinkOk(x, S)
      {
        assert old(LinkOk(x, S));
      }
    }

    // ---- queries

    /** Whether an item may be put in here. When the answer is yes, the item is not around this container. */
    method QueryAdd(index: int, item: Item, count: nat, flags: Flags, ghost S: set<Item>) returns (ret: ReturnValue)
      requires LinksOk(S) && this in S && isContainer
      ensures ret == NoError <==> flags.childIsOwner || MayAdd(this, index, item, flags, S)
      ensures !flags.childIsOwner && !unlocked ==> ret == NotPossible
      ensures !flags.childIsOwner && unlocked && !item.kind.pickupable ==> ret == CannotPickup
      ensures ret == ThisIsImpossible ==> item in Around(this, S)
      ensures ret == ContainerNotEnoughRoom ==>
                !flags.noLimit && (InsideInbox(this, S) || (index == INDEX_WHEREEVER && |itemlist| >= maxSize))
    {
      if flags.childIsOwner {
        return NoError;
      }
      if !unlocked {
        return NotPossible;
      }
      if !item.kind.pickupable {
        return CannotPickup;
      }
      if item == this {
        return ThisIsImpossible;
      }
      var cylinder := parent;
      assert LinkOk(this, S);
      while cylinder != null
        invariant cylinder != null ==> cylinder in S
        invariant item in Around(this, S) <==> cylinder != null && item in Around(cylinder, S)
        invariant !flags.noLimit ==>
                    (InsideInbox(this, S) <==> cylinder != null && exists x :: x in Around(cylinder, S) && x.isInbox)
        decreases if cylinder == null then 0 else cylinder.rank + 1
      {
        assert LinkOk(cylinder, S);
        if cylinder == item {
          return ThisIsImpossible;
        }
        if !flags.noLimit && cylinder.isInbox {
          return ContainerNotEnoughRoom;
        }
        cylinder := cylinder.parent;
      }
      if !flags.noLimit && index == INDEX_WHEREEVER && |itemlist| >= maxSize {
        return ContainerNotEnoughRoom;
      }
      // the outermost container, asked with childIsOwner set, has no objection
      return NoError;
    }

    // ---- operations

    /** Puts a loose item at position i of the list and accounts for its weight. */
    method Insert(item: Item, i: nat, ghost S: set<Item>)
      requires ForestOk(S) && this in S && isContainer && item in S && item.parent == null && i <= |itemlist|
      requires item !in Around(this, S)
      modifies this`itemlist, item`parent, S`rank, S`totalWeight
      ensures ForestOk(S) && item.parent == this
      ensures itemlist == old(itemlist)[..i] + [item] + old(itemlist)[i..]
    {
      ghost var W, weight := WeightMap(S), item.GetWeight();
      Attach(item, i, Around(this, S), S);
      ghost var want := map x | x in S :: 0;
      forall x | x in S
        ensures Wanting(x, S) == want[x] + if x == this then weight else 0
      {
        assert WeightMap(S) == W;
        assert old(Wanting(x, S)) == 0;
        if x == this {
          SumOfInsert(W, old(itemlist), i, item);
        }
      }
      UpdateItemWeight(item.GetWeight(), want, S);
    }

    method InternalAddThing(item: Item, ghost S: set<Item>)
      requires ForestOk(S) && this in S && isContainer && item in S && item.parent == null
      requires item !in Around(this, S)
      modifies this`itemlist, item`parent, S`rank, S`totalWeight
      ensures ForestOk(S) && item.parent == this && itemlist == [item] + old(itemlist)
    {
      Insert(item, 0, S);
    }

    /** Adds to the front; an index beyond the capacity makes it do nothing. */
    method AddThing(index: int, item: Item, ghost S: set<Item>)
      requires ForestOk(S) && this in S && isContainer && item in S && item.parent == null
      requires item !in Around(this, S)
      modifies this`itemlist, item`parent, S`rank, S`totalWeight
      ensures ForestOk(S)
      ensures index < maxSize ==> item.parent == this && itemlist == [item] + old(itemlist)
      ensures index >= maxSize ==> item.parent == null && itemlist == old(itemlist)
    {
      if index >= maxSize {
        return;
      }
      Insert(item, 0, S);
    }

    method AddItemBack(item: Item, ghost S: set<Item>)
      requires ForestOk(S) && this in S && isContainer && item in S && item.parent == null
      requires item !in Around(this, S)
      modifies this`itemlist, item`parent, S`rank, S`totalWeight
      ensures ForestOk(S) && item.parent == this && itemlist == old(itemlist) + [item]
    {
      Insert(item, |itemlist|, S);
    }

    method GetThingIndex(item: Item) returns (index: int)
      ensures index == -1 <==> item !in itemlist
      ensures index != -1 ==> 0 <= index < |itemlist| && itemlist[index] == item && item !in itemlist[..index]
    {
      index := 0;
      while index < |itemlist|
        invariant 0 <= index <= |itemlist| && item !in itemlist[..index]
      {
        if itemlist[index] == item {
          return;
        }
        index := index + 1;
      }
      return -1;
    }

    /** Changes the kind and the subtype of an item of the list. */
    method UpdateThing(item: Item, kind': Kind, count': nat, ghost S: set<Item>)
      requires ForestOk(S) && this in S && isContainer && item in S
      modifies item`kind, item`count, item`attrs, S`totalWeight
      ensures ForestOk(S)
      ensures item !in itemlist ==>
          item.kind == old(item.kind) && item.count == old(item.count) && item.attrs == old(item.attrs)
      ensures item in itemlist ==>
          item.kind == kind' && item.count == if kind'.subtyped then old(item.count) else count' % 256
      ensures item in itemlist ==>
          item.attrs == old(if kind'.subtyped then item.attrs.(rest := item.attrs.rest["subtype" := count'])
                            else item.attrs)
    {
      var index := GetThingIndex(item);
      if index == -1 {
        return;
      }
      ghost var W := WeightMap(S);
      WeightsAreBalanced(S);
      var oldWeight := item.GetWeight();
      item.BecomeInside(kind', count', W, S);
      Reweigh(item, oldWeight, W, S);
    }

    /** Accounts for an item of the list whose weight was oldWeight. */
    method Reweigh(item: Item, oldWeight: int, ghost W: map<Item, int>, ghost S: set<Item>)
      requires LinksOk(S) && this in S && isContainer && item in itemlist && item in S
      requires Balanced(W, S) && W[item] == oldWeight && WeightMap(S) == W[item := item.GetWeight()]
      modifies S`totalWeight
      ensures ForestOk(S)
    {
      ghost var want := map x | x in S :: 0;
      assert LinkOk(this, S);
      forall x | x in S
        ensures Wanting(x, S) == want[x] + if x == this then -oldWeight + item.GetWeight() else 0
      {
        assert LinkOk(x, S);
        assert SumOf(W, x.itemlist) == x.totalWeight;
        SumOfUpdate(W, x.itemlist, item, item.GetWeight());
      }
      UpdateItemWeight(-oldWeight + item.GetWeight(), want, S);
    }

    method BecomeInside(kind': Kind, n: nat, ghost W: map<Item, int>, ghost S: set<Item>)
      requires this in S && W == WeightMap(S)
      modifies this`kind, this`count, this`attrs
      ensures kind == kind'
      ensures count == if kind'.subtyped then old(count) else n % 256
      ensures attrs == if kind'.subtyped then old(attrs).(rest := old(attrs).rest["subtype" := n]) else old(attrs)
      ensures WeightMap(S) == W[this := GetWeight()]
    {
      Become(kind', n);
    }

    /** Takes on a kind and a subtype. */
    method Become(kind': Kind, n: nat)
      modifies this`kind, this`count, this`attrs
      ensures kind == kind'
      ensures count == if kind'.subtyped then old(count) else n % 256
      ensures attrs == if kind'.subtyped then old(attrs).(rest := old(attrs).rest["subtype" := n]) else old(attrs)
    {
      kind := kind';
      if kind.subtyped {
        attrs := attrs.(rest := attrs.rest["subtype" := n]);
      } else {
        count := n % 256;
      }
    }

    /** The pointers of an exchange. The replaced item is let go first; nothing looks at it in between. */
    method Exchange(index: nat, item: Item, ghost around: set<Item>, ghost S: set<Item>)
      requires LinksOk(S) && this in S && isContainer && item in S && item.parent == null && index < |itemlist|
      requires this in around && item !in around && ClosedUpwards(around)
      modifies this`itemlist, item`parent, {itemlist[index]}`parent, S`rank
      ensures LinksOk(S) && item.parent == this && old(itemlist[index]).parent == null
      ensures itemlist == old(itemlist)[index := item]
    {
      assert LinkOk(this, S) && LinkOk(itemlist[index], S);
      Detach(index, S);
      Attach(item, index, around, S);
    }

    /** Exchanges the item at an index for a loose one; the old one becomes loose. */
    method ReplaceThing(index: nat, item: Item, ghost S: set<Item>)
      requires ForestOk(S) && this in S && isContainer && item in S && item.parent == null
      requires item !in Around(this, S)
      modifies this`itemlist, item`parent, (set x | x in itemlist)`parent, S`rank, S`totalWeight
      ensures ForestOk(S)
      ensures index >= |old(itemlist)| ==> itemlist == old(itemlist) && item.parent == null
      ensures index < |old(itemlist)| ==> itemlist == old(itemlist)[index := item] && item.parent == this
      ensures index < |old(itemlist)| ==> old(itemlist)[index].parent == null
      ensures forall x :: x in old(itemlist) && (index >= |old(itemlist)| || x != old(itemlist)[index]) ==>
          x.parent == old(x.parent)
    {
      if index >= |itemlist| {
        return;
      }
      var replacedItem := itemlist[index];
      ghost var W, list := WeightMap(S), itemlist;
      assert LinkOk(this, S);
      WeightsAreBalanced(S);
      Exchange(index, item, Around(this, S), S);
      assert WeightMap(S) == W;
      ReweighReplaced(index, item, replacedItem, list, W, S);
    }

    /** Accounts for an item of the list that is another. */
    method ReweighReplaced(index: nat, item: Item, replacedItem: Item, ghost list: seq<Item>, ghost W: map<Item, int>,
                           ghost S: set<Item>)
      requires LinksOk(S) && this in S && isContainer && item in S && replacedItem in S && W == WeightMap(S)
      requires index < |list| && list[index] == replacedItem && itemlist == list[index := item]
      requires SumOf(W, list) == totalWeight
      requires forall x :: x in S && x != this ==> SumOf(W, x.itemlist) == x.totalWeight
      modifies S`totalWeight
      ensures ForestOk(S)
    {
      ghost var want := map x | x in S :: 0;
      forall x | x in S
        ensures Wanting(x, S) == want[x] + if x == this then -replacedItem.GetWeight() + item.GetWeight() else 0
      {
        if x == this {
          SumOfReplace(W, list, index, item);
        }
      }
      UpdateItemWeight(-replacedItem.GetWeight() + item.GetWeight(), want, S);
    }

    /** Takes count pieces off a stack of the list, or the whole item out of it. */
    method RemoveThing(item: Item, count: nat, ghost S: set<Item>)
      requires ForestOk(S) && this in S && isContainer && item in S
      modifies this`itemlist, item`parent, item`count, S`totalWeight
      ensures ForestOk(S)
      ensures item !in old(itemlist) ==>
          itemlist == old(itemlist) && item.parent == old(item.parent) && item.count == old(item.count)
      ensures item in old(itemlist) ==>
        if item.kind.stackable && count != old(item.count) then
          && itemlist == old(itemlist) && item.parent == this
          && item.count == (if old(item.count) < count then 0 else old(item.count) - count) % 256
        else
          && item.parent == null && item.count == old(item.count)
          && exists i :: 0 <= i < |old(itemlist)| && old(itemlist)[i] == item
               && itemlist == old(itemlist)[..i] + old(itemlist)[i+1..]
    {
      var index := GetThingIndex(item);
      if index == -1 {
        return;
      }
      assert LinkOk(this, S);
      if item.kind.stackable && count != item.count {
        SetPieces(item, if item.count < count then 0 else item.count - count, S);
      } else {
        TakeOut(index, S);
      }
    }

    method SetPieces(item: Item, n: nat, ghost S: set<Item>)
      requires ForestOk(S) && this in S && isContainer && item in itemlist
      modifies item`count, S`totalWeight
      ensures ForestOk(S) && item.count == n % 256
    {
      assert LinkOk(this, S);
      ghost var W := WeightMap(S);
      WeightsAreBalanced(S);
      var oldWeight := item.GetWeight();
      item.count := n % 256;
      assert WeightMap(S) == W[item := item.GetWeight()];
      Reweigh(item, oldWeight, W, S);
    }

    /** The weight goes first, then the item; in between the list is too heavy by that much. */
    method TakeOut(index: nat, ghost S: set<Item>)
      requires ForestOk(S) && this in S && isContainer && index < |itemlist|
      modifies this`itemlist, {itemlist[index]}`parent, S`totalWeight
      ensures ForestOk(S) && old(itemlist[index]).parent == null
      ensures itemlist == old(itemlist)[..index] + old(itemlist)[index+1..]
    {
      assert LinkOk(this, S);
      ghost var weight := itemlist[index].GetWeight();
      ghost var want := map x | x in S :: if x == this then weight else 0;
      forall x | x in S
        ensures Wanting(x, S) == want[x] + if x == this then -weight else 0
      {
      }
      assert LinkOk(itemlist[index], S);
      UpdateItemWeight(-itemlist[index].GetWeight(), want, S);
      Drop(index, S, weight);
    }

    method Drop(index: nat, ghost S: set<Item>, ghost weight: int)
      requires LinksOk(S) && this in S && index < |itemlist| && itemlist[index] in S
      requires WeightMap(S)[itemlist[index]] == weight
      requires forall x {:trigger Wanting(x, S)} :: x in S ==> Wanting(x, S) == if x == this then weight else 0
      modifies this`itemlist, {itemlist[index]}`parent
      ensures ForestOk(S) && old(itemlist[index]).parent == null
      ensures itemlist == old(itemlist)[..index] + old(itemlist)[index+1..]
    {
      ghost var W := WeightMap(S);
      Detach(index, S);
      forall x | x in S
        ensures Wanting(x, S) == 0
      {
        assert WeightMap(S) == W;
        assert old(Wanting(x, S)) == if x == this then weight else 0;
        if x == this {
          ghost var list := old(itemlist);
          assert itemlist[..index] + [list[index]] + itemlist[index..] == list;
          SumOfInsert(W, itemlist, index, list[index]);
        }
      }
    }
  }

  /** A set that holds with an item everything around it. */
  ghost predicate ClosedUpwards(around: set<Item>)
    reads around`parent
  {
    forall x :: x in around && x.parent != null ==> x.parent in around
  }

  /** c and every container around it. */
  ghost function Around(c: Item, S: set<Item>): (r: set<Item>)
    requires LinksOk(S) && c in S
    reads S`parent, S`itemlist, S`rank
    ensures c in r && r <= S && ClosedUpwards(r)
    ensures forall x :: x in r ==> x == c || x.rank < c.rank
    decreases c.rank
  {
    assert LinkOk(c, S);
    {c} + if c.parent == null then {} else Around(c.parent, S)
  }

  ghost predicate InsideInbox(c: Item, S: set<Item>)
    requires LinksOk(S) && c in S
    reads S`parent, S`itemlist, S`rank
  {
    exists x :: x in Around(c, S) && x != c && x.isInbox
  }

  /** c takes the item in: it is open, the item can be carried and does not hold c, and, if limits count,
      c is not in an inbox and has a free place when no place is named. */
  ghost predicate MayAdd(c: Item, index: int, item: Item, flags: Flags, S: set<Item>)
    requires LinksOk(S) && c in S
    reads S`parent, S`itemlist, S`rank, item`kind, c`itemlist
  {
    && c.unlocked
    && item.kind.pickupable
    && item !in Around(c, S)
    && (!flags.noLimit ==> !InsideInbox(c, S) && !(index == INDEX_WHEREEVER && |c.itemlist| >= c.maxSize))
  }

  /** The weights of all items. */
  ghost function WeightMap(S: set<Item>): map<Item, int>
    reads S`kind, S`count, S`attrs, S`totalWeight
  {
    map x | x in S :: x.GetWeight()
  }

  /** The weight of a list of items. */
  ghost function SumOf(W: map<Item, int>, s: seq<Item>): int {
    if s == [] then 0 else SumOf(W, s[1..]) + if s[0] in W then W[s[0]] else 0
  }

  lemma {:induction false} SumOfUpdate(W: map<Item, int>, s: seq<Item>, x: Item, v: int)
    requires Distinct(s) && x in W
    ensures SumOf(W[x := v], s) == SumOf(W, s) + if x in s then v - W[x] else 0
  {
    if s != [] {
      SumOfUpdate(W, s[1..], x, v);
      assert x in s <==> x == s[0] || x in s[1..];
    }
  }

  lemma {:induction false} SumOfConcat(W: map<Item, int>, s: seq<Item>, t: seq<Item>)
    ensures SumOf(W, s + t) == SumOf(W, s) + SumOf(W, t)
  {
    if s == [] {
      assert s + t == t;
    } else {
      assert (s + t)[1..] == s[1..] + t;
      SumOfConcat(W, s[1..], t);
    }
  }

  lemma {:induction false} SumOfInsert(W: map<Item, int>, s: seq<Item>, i: nat, x: Item)
    requires i <= |s| && x in W
    ensures SumOf(W, s[..i] + [x] + s[i..]) == SumOf(W, s) + W[x]
  {
    SumOfConcat(W, s[..i] + [x], s[i..]);
    SumOfConcat(W, s[..i], [x]);
    SumOfConcat(W, s[..i], s[i..]);
    assert s == s[..i] + s[i..];
  }

  lemma SumOfReplace(W: map<Item, int>, s: seq<Item>, i: nat, x: Item)
    requires i < |s| && x in W && s[i] in W
    ensures SumOf(W, s[i := x]) == SumOf(W, s) - W[s[i]] + W[x]
  {
    var rest := s[..i] + s[i+1..];
    assert rest[..i] + [s[i]] + rest[i..] == s;
    assert rest[..i] + [x] + rest[i..] == s[i := x];
    SumOfInsert(W, rest, i, s[i]);
    SumOfInsert(W, rest, i, x);
  }

  /** The pointers around x agree: its list holds what calls it parent, and its parent's list holds it. */
  ghost predicate LinkOk(x: Item, S: set<Item>)
    reads S`parent, S`itemlist, S`rank
  {
    && (x in S && x.parent != null ==>
          x.parent in S && x.parent.isContainer && x in x.parent.itemlist && x.parent.rank < x.rank)
    && (x in S ==> Distinct(x.itemlist) && forall c :: c in x.itemlist ==> c in S && c.parent == x)
    && (x in S && !x.isContainer ==> x.itemlist == [])
  }

  ghost predicate LinksOk(S: set<Item>)
    reads S`parent, S`itemlist, S`rank
  {
    forall x {:trigger LinkOk(x, S)} :: x in S ==> LinkOk(x, S)
  }

  /** By how much the cached weight of x falls short of the weight of its contents. */
  ghost function Wanting(x: Item, S: set<Item>): int
    requires x in S
    reads S`itemlist, S`kind, S`count, S`attrs, S`totalWeight
  {
    SumOf(WeightMap(S), x.itemlist) - x.totalWeight
  }

  /** With the weights W every cached weight is the weight of the contents. */
  ghost predicate Balanced(W: map<Item, int>, S: set<Item>)
    reads S`itemlist, S`totalWeight
  {
    W.Keys == S && forall x {:trigger SumOf(W, x.itemlist)} :: x in S ==> SumOf(W, x.itemlist) == x.totalWeight
  }

  /** Every cached weight is the weight of the contents. */
  ghost predicate WeightsOk(S: set<Item>)
    reads S`itemlist, S`kind, S`count, S`attrs, S`totalWeight
  {
    forall x {:trigger Wanting(x, S)} :: x in S ==> Wanting(x, S) == 0
  }

  /** The weight of one piece: that of the kind, unless the item has another. */
  function PieceWeight(x: Item): nat
    reads x`kind, x`attrs
  {
    if x.attrs.weight.Some? then x.attrs.weight.value else x.kind.weight
  }

  /** What cannot be stacked, and a stack of one piece or of none, weighs as much as one piece; and a stack as much as
      its parts. */
  lemma WeightOfParts(x: Item, y: Item, z: Item)
    requires x.kind == y.kind == z.kind && x.attrs == y.attrs == z.attrs
    ensures !x.kind.stackable || x.count <= 1 ==> x.OwnWeight() == PieceWeight(x)
    ensures x.kind.stackable && x.count == y.count + z.count && y.count > 0 && z.count > 0 ==>
      x.OwnWeight() == y.OwnWeight() + z.OwnWeight()
  {
    TimesAdds(PieceWeight(x), y.count, z.count);
    assert Times(PieceWeight(x), 1) == Times(PieceWeight(x), 0) + PieceWeight(x);
  }

  lemma WeightsAreBalanced(S: set<Item>)
    ensures WeightsOk(S) <==> Balanced(WeightMap(S), S)
  {
    assert forall x :: x in S ==> Wanting(x, S) == SumOf(WeightMap(S), x.itemlist) - x.totalWeight;
  }

  ghost predicate ForestOk(S: set<Item>)
    reads S`parent, S`itemlist, S`rank, S`kind, S`count, S`attrs, S`totalWeight
  {
    LinksOk(S) && WeightsOk(S)
  }

  // ---- lemmas for callers that change the forest between a query and an operation

  /** c and what is around it lie within every set that is closed upwards and has c. */
  lemma {:induction false} AroundWithin(c: Item, around: set<Item>, S: set<Item>)
    requires LinksOk(S) && c in S && c in around && ClosedUpwards(around)
    ensures Around(c, S) <= around
    decreases c.rank
  {
    assert LinkOk(c, S);
    if c.parent != null {
      AroundWithin(c.parent, around, S);
    }
  }

  lemma {:induction false} SumOfAgree(W: map<Item, int>, V: map<Item, int>, s: seq<Item>)
    requires forall x :: x in s ==> x in W && x in V && W[x] == V[x]
    ensures SumOf(W, s) == SumOf(V, s)
  {
    if s != [] {
      SumOfAgree(W, V, s[1..]);
    }
  }

  /** A loose item can join the forest. */
  lemma JoinForest(S: set<Item>, x: Item)
    requires ForestOk(S) && x !in S && x.parent == null && x.itemlist == [] && x.totalWeight == 0
    ensures ForestOk(S + {x})
  {
    var T := S + {x};
    forall y | y in T
      ensures LinkOk(y, T)
    {
      assert y != x ==> LinkOk(y, S);
    }
    forall y | y in T
      ensures Wanting(y, T) == 0
    {
      if y != x {
        assert LinkOk(y, S) && Wanting(y, S) == 0;
        SumOfAgree(WeightMap(S), WeightMap(T), y.itemlist);
      }
    }
  }
}
