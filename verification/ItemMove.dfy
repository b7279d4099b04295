/** Moving items between containers: splitting, merging, cloning. */
module ItemMove {
  import opened Basics
  import opened Containers

  const MAP_MAX_LAYERS := 16

  /** Two items that can stand on one stack. */
  predicate Equals(a: Item, b: Item?)
    reads a, b
  {
    b != null && a.kind == b.kind && a.attrs == b.attrs
  }

  /** The item table is sound: what can be stacked is no container and keeps its number as a count. */
  ghost predicate KindsOk(S: set<Item>)
    reads S`kind
  {
    forall x :: x in S && x.kind.stackable ==> !x.isContainer && !x.kind.subtyped
  }

  /** The kinds and counts of all items. */
  type Counts = map<Item, (Kind, nat)>

  ghost function CountsOf(S: set<Item>): Counts
    reads S`kind, S`count
  {
    map x | x in S :: (x.kind, x.count)
  }

  /** The pieces of kind k in a list. */
  ghost function Pieces(M: Counts, s: seq<Item>, k: Kind): int {
    if s == [] then 0 else Pieces(M, s[1..], k) + if s[0] in M && M[s[0]].0 == k then M[s[0]].1 else 0
  }

  lemma {:induction false} PiecesUpdate(M: Counts, s: seq<Item>, x: Item, n: nat, k: Kind)
    requires Distinct(s) && x in M
    ensures Pieces(M[x := (M[x].0, n)], s, k) == Pieces(M, s, k) + if x in s && M[x].0 == k then n - M[x].1 else 0
  {
    if s != [] {
      PiecesUpdate(M, s[1..], x, n, k);
      assert x in s <==> x == s[0] || x in s[1..];
    }
  }

  lemma {:induction false} PiecesConcat(M: Counts, s: seq<Item>, t: seq<Item>, k: Kind)
    ensures Pieces(M, s + t, k) == Pieces(M, s, k) + Pieces(M, t, k)
  {
    if s == [] {
      assert s + t == t;
    } else {
      assert (s + t)[1..] == s[1..] + t;
      PiecesConcat(M, s[1..], t, k);
    }
  }

  lemma {:induction false} PiecesWithout(M: Counts, s: seq<Item>, i: nat, k: Kind)
    requires i < |s| && s[i] in M
    ensures Pieces(M, s[..i] + s[i+1..], k) == Pieces(M, s, k) - if M[s[i]].0 == k then M[s[i]].1 else 0
  {
    PiecesConcat(M, s[..i], s[i+1..], k);
    PiecesConcat(M, s[..i], [s[i]], k);
    PiecesConcat(M, s[..i] + [s[i]], s[i+1..], k);
    assert s == s[..i] + [s[i]] + s[i+1..];
  }

  lemma {:induction false} PiecesAgree(M: Counts, N: Counts, s: seq<Item>, k: Kind)
    requires forall x :: x in s ==> x in M && x in N && M[x] == N[x]
    ensures Pieces(M, s, k) == Pieces(N, s, k)
  {
    if s != [] {
      PiecesAgree(M, N, s[1..], k);
    }
  }

  ghost predicate StacksOk(s: seq<Item>)
    reads (set x | x in s)`kind, (set x | x in s)`count
  {
    forall x :: x in s && x.kind.stackable ==> x.count <= MAX_STACK
  }

  // ---- queries

  function ItemByIndex(c: Item, index: int): Item?
    reads c
  {
    if 0 <= index < |c.itemlist| then c.itemlist[index] else null
  }

  function FreeSlots(c: Item): nat
    reads c
  {
    if |c.itemlist| < c.maxSize then c.maxSize - |c.itemlist| else 0
  }

  /** x is another stack of what item is, and not a full one. */
  predicate Stacks(x: Item?, item: Item)
    reads x, item
  {
    x != null && x != item && Equals(x, item) && x.count < MAX_STACK
  }

  /** The first stack of a list for an item, or the end of the list. */
  function StackIndex(list: seq<Item>, item: Item): (n: nat)
    reads item, set x | x in list
    ensures n <= |list| && (n < |list| ==> Stacks(list[n], item))
    ensures forall i :: 0 <= i < n ==> !Stacks(list[i], item)
  {
    if list == [] || Stacks(list[0], item) then 0 else 1 + StackIndex(list[1..], item)
  }

  /** What the stacks of a list still take of an item. */
  function RoomOnStacks(list: seq<Item>, item: Item): nat
    reads item, set x | x in list
  {
    if list == [] then 0
    else
      var x := list[|list|-1];
      RoomOnStacks(list[..|list|-1], item) + if Stacks(x, item) then MAX_STACK - x.count else 0
  }

  /** What the stack at an index still takes; the item itself is asked about like any other. */
  function RoomAt(c: Item, index: int, item: Item): nat
    reads c, item, set x | x in c.itemlist
  {
    var dest := ItemByIndex(c, index);
    if Equals(item, dest) && dest.count < MAX_STACK then MAX_STACK - dest.count else 0
  }

  /** How many pieces of an item a container takes at an index. */
  ghost function MaxCount(c: Item, index: int, item: Item, count: nat, flags: Flags, S: set<Item>): nat
    requires LinksOk(S) && c in S && item in S
    reads S
  {
    assert LinkOk(c, S);
    if flags.noLimit then Max(1, count)
    else if !item.kind.stackable then FreeSlots(c)
    else
      FreeSlots(c) * 100 + (
        if !flags.childIsOwner && !MayAdd(c, 0, item, flags, S) then 0
        else if index == INDEX_WHEREEVER then RoomOnStacks(c.itemlist, item)
        else RoomAt(c, index, item))
  }

  method QueryMaxCount(c: Item, index: int, item: Item, count: nat, flags: Flags, ghost S: set<Item>)
    returns (ret: ReturnValue, maxQueryCount: nat)
    requires LinksOk(S) && c in S && item in S && c.isContainer
    ensures maxQueryCount == MaxCount(c, index, item, count, flags, S)
    ensures ret == if !flags.noLimit && (if item.kind.stackable then maxQueryCount < count else maxQueryCount == 0)
                   then ContainerNotEnoughRoom else NoError
  {
    if flags.noLimit {
      return NoError, Max(1, count);
    }
    var freeSlots := FreeSlots(c);
    if item.kind.stackable {
      var n: nat := 0;
      if index == INDEX_WHEREEVER {
        n := QueryStacks(c, item, flags, S);
      } else {
        var destItem := ItemByIndex(c, index);
        if Equals(item, destItem) && destItem.count < MAX_STACK {
          var remainder := MAX_STACK - destItem.count;
          var r := c.QueryAdd(index, item, remainder, flags, S);
          if r == NoError {
            n := remainder;
          }
        }
      }
      maxQueryCount := freeSlots * 100 + n;
      if maxQueryCount < count {
        return ContainerNotEnoughRoom, maxQueryCount;
      }
    } else {
      maxQueryCount := freeSlots;
      if maxQueryCount == 0 {
        return ContainerNotEnoughRoom, maxQueryCount;
      }
    }
    return NoError, maxQueryCount;
  }

  /** Adds up what the stacks of a container still take. */
  method QueryStacks(c: Item, item: Item, flags: Flags, ghost S: set<Item>) returns (n: nat)
    requires LinksOk(S) && c in S && item in S && c.isContainer
    ensures n == if flags.childIsOwner || MayAdd(c, 0, item, flags, S) then RoomOnStacks(c.itemlist, item) else 0
  {
    n := 0;
    var slotIndex: nat := 0;
    for i := 0 to |c.itemlist|
      invariant n ==
          if flags.childIsOwner || MayAdd(c, 0, item, flags, S) then RoomOnStacks(c.itemlist[..i], item) else 0
    {
      assert c.itemlist[..i+1][..i] == c.itemlist[..i];
      var containerItem := c.itemlist[i];
      if containerItem != item && Equals(containerItem, item) && containerItem.count < MAX_STACK {
        var remainder := MAX_STACK - containerItem.count;
        var r := c.QueryAdd(slotIndex, item, remainder, flags, S);
        slotIndex := slotIndex + 1;
        if r == NoError {
          n := n + remainder;
        }
      }
    }
    assert c.itemlist[..|c.itemlist|] == c.itemlist;
  }

  method QueryRemove(c: Item, item: Item, count: nat, flags: Flags) returns (ret: ReturnValue)
    ensures ret == NoError <==> MayTake(c, item, count, flags)
    ensures ret in {NoError, NotPossible, NotMoveable}
  {
    var index := c.GetThingIndex(item);
    if index == -1 {
      return NotPossible;
    }
    if count == 0 || (item.kind.stackable && count > item.count) {
      return NotPossible;
    }
    if !item.kind.moveable && !flags.ignoreNotMoveable {
      return NotMoveable;
    }
    return NoError;
  }

  /** Where a move is headed: a container, a place in it, the item at that place. */
  datatype Aim = Aim(to: Item, index: int, toItem: Item?)

  /** Where a container sends a move: up; onto its first stack; to the place named, or into the container there;
      or to no place in particular. */
  function Destination(c: Item, index: int, item: Item, flags: Flags, autoStackItems: bool): Aim
    reads c, item, set x | x in c.itemlist
  {
    if !c.unlocked then Aim(c, index, null)
    else if index == 254 then Aim(if c.parent != null then c.parent else c, INDEX_WHEREEVER, null)
    else
      var place := if index == 255 || index >= c.maxSize then INDEX_WHEREEVER else index;
      var n := StackIndex(c.itemlist, item);
      if autoStackItems && !flags.ignoreAutoStack && item.kind.stackable && item.parent != c && n < |c.itemlist| then
        Aim(c, n, c.itemlist[n])
      else if place == INDEX_WHEREEVER then Aim(c, place, null)
      else
        var x := ItemByIndex(c, place);
        if x != null && x.isContainer then Aim(x, INDEX_WHEREEVER, null) else Aim(c, place, x)
  }

  method QueryDestination(c: Item, index: int, item: Item, destItem: Item?, flags: Flags, autoStackItems: bool)
    returns (dest: Item, index': int, destItem': Item?)
    requires destItem == null
    ensures Aim(dest, index', destItem') == Destination(c, index, item, flags, autoStackItems)
  {
    if !c.unlocked {
      return c, index, null;
    }
    index', destItem' := index, destItem;
    if index' == 254 {
      if c.parent != null {
        return c.parent, INDEX_WHEREEVER, null;
      }
      return c, INDEX_WHEREEVER, null;
    }
    if index' == 255 {
      index', destItem' := INDEX_WHEREEVER, null;
    } else if index' >= c.maxSize {
      index', destItem' := INDEX_WHEREEVER, null;
    }
    if autoStackItems && !flags.ignoreAutoStack && item.kind.stackable && item.parent != c {
      var n := 0;
      assert c.itemlist[0..] == c.itemlist;
      while n < |c.itemlist|
        invariant 0 <= n <= |c.itemlist|
        invariant StackIndex(c.itemlist, item) == n + StackIndex(c.itemlist[n..], item)
      {
        var listItem := c.itemlist[n];
        assert c.itemlist[n..][0] == listItem && c.itemlist[n..][1..] == c.itemlist[n+1..];
        if listItem != item && Equals(listItem, item) && listItem.count < MAX_STACK {
          return c, n, listItem;
        }
        n := n + 1;
      }
    }
    if index' != INDEX_WHEREEVER {
      var itemFromIndex := ItemByIndex(c, index');
      if itemFromIndex != null {
        destItem' := itemFromIndex;
      }
      if destItem' != null && destItem'.isContainer {
        return destItem', INDEX_WHEREEVER, null;
      }
    }
    return c, index', destItem';
  }

  /** Asks one container after the other, at most so many times, until one answers with itself; only the first is
      asked with the flags. */
  ghost function Resolved(c: Item, index: int, item: Item, flags: Flags, autoStackItems: bool, floors: nat,
                          S: set<Item>): (r: (Aim, Flags))
    requires LinksOk(S) && c in S && item in S && c.isContainer
    reads S
    ensures r.0.to in S && r.0.to.isContainer && (r.1 == flags || r.1 == NO_FLAGS)
    ensures r.0.toItem != null ==> r.0.toItem in S
    ensures r.0.to.unlocked ==> AimOk(r.0, item)
    decreases floors
  {
    assert LinkOk(c, S);
    var aim := Destination(c, index, item, flags, autoStackItems);
    if aim.to == c || floors == 0 then (aim, flags)
    else if floors == 1 then (aim, NO_FLAGS)
    else Resolved(aim.to, aim.index, item, NO_FLAGS, autoStackItems, floors - 1, S)
  }

  lemma ResolvedNext(c: Item, index: int, item: Item, flags: Flags, autoStackItems: bool, floors: nat, S: set<Item>,
                     aim: Aim)
    requires LinksOk(S) && c in S && item in S && c.isContainer && floors > 0
    requires aim == Destination(c, index, item, flags, autoStackItems)
    ensures aim.to in S && aim.to.isContainer
    ensures Resolved(c, index, item, flags, autoStackItems, floors, S) ==
        if aim.to == c then (aim, flags)
        else if floors == 1 then (aim, NO_FLAGS)
        else Resolved(aim.to, aim.index, item, NO_FLAGS, autoStackItems, floors - 1, S)
  {
    assert LinkOk(c, S);
  }

  /** The second container that is asked always answers with itself, so that no more than two are. */
  lemma TwoAreAsked(c: Item, index: int, item: Item, flags: Flags, flags': Flags, autoStackItems: bool)
    ensures var aim := Destination(c, index, item, flags, autoStackItems);
      aim.to != c ==> Destination(aim.to, aim.index, item, flags', autoStackItems).to == aim.to
  {
  }

  /** The item aimed at is the one at the place; a place beyond the capacity is that of a stack. */
  predicate AimOk(aim: Aim, item: Item)
    reads aim.to, item, set x | x in aim.to.itemlist
  {
    && aim.toItem == (if aim.index == INDEX_WHEREEVER then null else ItemByIndex(aim.to, aim.index))
    && (aim.index >= aim.to.maxSize ==>
        item.kind.stackable && Stacks(aim.toItem, item) && |aim.to.itemlist| > aim.to.maxSize)
  }

  /** Asks one container; settled is where the move goes in the end. */
  method Ask(c: Item, index: int, item: Item, flags: Flags, autoStackItems: bool, ghost floors: nat, ghost S: set<Item>,
             ghost settled: (Aim, Flags))
    returns (subCylinder: Item, index': int, toItem: Item?)
    requires LinksOk(S) && c in S && item in S && c.isContainer && floors > 0
    requires settled == Resolved(c, index, item, flags, autoStackItems, floors, S)
    ensures subCylinder in S && subCylinder.isContainer
    ensures subCylinder == c ==> settled == (Aim(subCylinder, index', toItem), flags)
    ensures subCylinder != c && floors == 1 ==> settled == (Aim(subCylinder, index', toItem), NO_FLAGS)
    ensures subCylinder != c && floors > 1 ==>
              toItem == null && settled == Resolved(subCylinder, index', item, NO_FLAGS, autoStackItems, floors - 1, S)
  {
    subCylinder, index', toItem := QueryDestination(c, index, item, null, flags, autoStackItems);
    ResolvedNext(c, index, item, flags, autoStackItems, floors, S, Aim(subCylinder, index', toItem));
  }

  method Resolve(toCylinder: Item, index: int, item: Item, flags: Flags, autoStackItems: bool, ghost S: set<Item>,
                 ghost settled: (Aim, Flags))
    returns (to: Item, index': int, toItem: Item?, flags': Flags)
    requires LinksOk(S) && toCylinder in S && item in S && toCylinder.isContainer
    requires settled == Resolved(toCylinder, index, item, flags, autoStackItems, MAP_MAX_LAYERS, S)
    ensures (Aim(to, index', toItem), flags') == settled
  {
    to, index', toItem, flags' := toCylinder, index, null, flags;
    var floorN: nat := 0;
    while true
      invariant floorN < MAP_MAX_LAYERS && to in S && to.isContainer
      invariant settled == Resolved(to, index', item, flags', autoStackItems, MAP_MAX_LAYERS - floorN, S)
      decreases MAP_MAX_LAYERS - floorN
    {
      var subCylinder;
      subCylinder, index', toItem := Ask(to, index', item, flags', autoStackItems, MAP_MAX_LAYERS - floorN, S, settled);
      if subCylinder == to {
        return;
      }
      to := subCylinder;
      flags' := NO_FLAGS;
      floorN := floorN + 1;
      if floorN >= MAP_MAX_LAYERS {
        return;
      }
    }
  }

  // ---- what a move comes to, before it is made

  /** The pieces a move takes, when so many can be put there. */
  function MovedCount(item: Item, count: nat, maxCount: nat): nat
    reads item
  {
    if !item.kind.stackable then maxCount else Min(if item.kind.rune then item.count else count, maxCount)
  }

  /** A move is made exactly if the container takes the item in and there is a piece to take that may be taken;
      and nothing that is offered in the trade may swallow the item. */
  ghost predicate CanMove(from: Item, aim: Aim, item: Item, count: nat, flags: Flags, tradeItem: Item?, S: set<Item>)
    requires LinksOk(S) && from in S && aim.to in S && item in S
    reads S
  {
    && item != aim.toItem
    && MayAdd(aim.to, aim.index, item, flags, S)
    && MayTake(from, item, MovedCount(item, count, MaxCount(aim.to, aim.index, item, count, flags, S)), flags)
    && (tradeItem != null ==> tradeItem !in Around(aim.to, S))
  }

  /** There are so many pieces, at least one, and they may be taken. */
  predicate MayTake(from: Item, item: Item, m: nat, flags: Flags)
    reads from, item
  {
    && item in from.itemlist
    && m != 0 && (item.kind.stackable ==> m <= item.count)
    && (item.kind.moveable || flags.ignoreNotMoveable)
  }

  /** An item that is no stack goes exactly if there is a free place, or limits do not count, however many are asked
      for. */
  lemma {:induction false} RoomIsEnough(from: Item, aim: Aim, item: Item, count: nat, flags: Flags, tradeItem: Item?,
                                        S: set<Item>)
    requires LinksOk(S) && from in S && aim.to in S && item in S && !item.kind.stackable
    requires MayAdd(aim.to, aim.index, item, flags, S) && item in from.itemlist && item != aim.toItem
    requires item.kind.moveable || flags.ignoreNotMoveable
    requires tradeItem != null ==> tradeItem !in Around(aim.to, S)
    ensures CanMove(from, aim, item, count, flags, tradeItem, S) <==>
      flags.noLimit || |aim.to.itemlist| < aim.to.maxSize
  {
  }

  /** Of a stack all pieces asked for go, of runes the whole stack, if there is a free place; without one, as many as
      the stacks of the container lack, or the one at the index; and the move is made exactly if that is something. */
  lemma {:induction false} PiecesThatGo(from: Item, aim: Aim, item: Item, count: nat, flags: Flags, tradeItem: Item?,
                                        S: set<Item>)
    requires LinksOk(S) && from in S && aim.to in S && item in S && item.kind.stackable
    requires MayAdd(aim.to, aim.index, item, flags, S) && item in from.itemlist && item != aim.toItem
    requires item.kind.moveable || flags.ignoreNotMoveable
    requires tradeItem != null ==> tradeItem !in Around(aim.to, S)
    requires count <= item.count <= MAX_STACK && !flags.noLimit && !flags.childIsOwner
    ensures var asked := if item.kind.rune then item.count else count;
      var m := MovedCount(item, count, MaxCount(aim.to, aim.index, item, count, flags, S));
      && m == (if |aim.to.itemlist| < aim.to.maxSize then asked
               else if aim.index == INDEX_WHEREEVER then Min(asked, RoomOnStacks(aim.to.itemlist, item))
               else Min(asked, RoomAt(aim.to, aim.index, item)))
      && (CanMove(from, aim, item, count, flags, tradeItem, S) <==> m > 0)
  {
    if aim.index != INDEX_WHEREEVER {
      MayAddAnywhere(aim.to, aim.index, item, flags, S);
    }
  }

  /** What is somewhere else, or fixed to its place, is not moved. */
  lemma StaysPut(from: Item, aim: Aim, item: Item, count: nat, flags: Flags, tradeItem: Item?, S: set<Item>)
    requires LinksOk(S) && from in S && aim.to in S && item in S
    requires item !in from.itemlist || (!item.kind.moveable && !flags.ignoreNotMoveable)
    ensures !CanMove(from, aim, item, count, flags, tradeItem, S)
  {
  }

  /** The pieces that could not be put into a list for what is in it already: those on stacks like the item, and a
      full place for anything else. */
  function Occupied(list: seq<Item>, item: Item): nat
    reads item, set x | x in list
  {
    if list == [] then 0
    else
      var x := list[|list|-1];
      Occupied(list[..|list|-1], item) + if x != item && Equals(x, item) then x.count else MAX_STACK
  }

  lemma {:induction false} RoomIsLeft(list: seq<Item>, item: Item)
    requires forall x :: x in list ==> x.count <= MAX_STACK
    ensures RoomOnStacks(list, item) + Occupied(list, item) == MAX_STACK * |list|
  {
    if list != [] {
      RoomIsLeft(list[..|list|-1], item);
    }
  }

  /** So a container takes as many pieces as its places hold, less what is occupied. */
  lemma {:induction false} MaxCountIs(c: Item, item: Item, count: nat, flags: Flags, S: set<Item>)
    requires LinksOk(S) && c in S && item in S && item.kind.stackable && !flags.noLimit
    requires flags.childIsOwner || MayAdd(c, 0, item, flags, S)
    requires |c.itemlist| <= c.maxSize && forall x :: x in c.itemlist ==> x.count <= MAX_STACK
    ensures MaxCount(c, INDEX_WHEREEVER, item, count, flags, S) + Occupied(c.itemlist, item) == MAX_STACK * c.maxSize
  {
    RoomIsLeft(c.itemlist, item);
  }

  /** What a stack takes of m pieces. */
  function Merged(item: Item, toItem: Item?, m: nat): nat
    reads item, toItem
  {
    if item.kind.stackable && !item.kind.rune && Equals(item, toItem) && toItem.count <= MAX_STACK
    then Min(MAX_STACK - toItem.count, m) else 0
  }

  /** How a move turns out: pieces taken, pieces put on a stack that was there, pieces that get lost; and whether
      it makes the one list shorter and the other one longer. */
  datatype Outcome = Outcome(taken: nat, merged: nat, lost: nat, leaves: bool, arrives: bool)

  /** What is left over after the stack is lost when the index lies beyond the capacity. */
  function OutcomeOf(aim: Aim, item: Item, m: nat): Outcome
    reads item, aim.toItem
  {
    var taken := if item.kind.stackable then m else item.count;
    var merged := Merged(item, aim.toItem, m);
    var rest := item.kind.stackable ==> taken > merged;
    var inside := aim.index < aim.to.maxSize;
    Outcome(taken, merged, if inside || taken <= merged then 0 else taken - merged,
            !item.kind.stackable || m == item.count, rest && inside)
  }

  /** Pieces get lost exactly when the stack aimed at lies beyond the capacity and cannot take them all:
      runes are not put on stacks at all, and without limits there may be too many. */
  ghost predicate Loses(aim: Aim, item: Item, count: nat, flags: Flags)
    reads item, aim.toItem
  {
    aim.index >= aim.to.maxSize && aim.toItem != null
    && (item.kind.rune || (flags.noLimit && aim.toItem.count < MAX_STACK && count > MAX_STACK - aim.toItem.count))
  }

  lemma WhenPiecesGetLost(from: Item, aim: Aim, item: Item, count: nat, flags: Flags, tradeItem: Item?, S: set<Item>)
    requires LinksOk(S) && KindsOk(S) && from in S && aim.to in S && item in S && AimOk(aim, item)
    requires !flags.childIsOwner
    requires CanMove(from, aim, item, count, flags, tradeItem, S)
    ensures var o := OutcomeOf(aim, item, MovedCount(item, count, MaxCount(aim.to, aim.index, item, count, flags, S)));
      && (o.lost > 0 <==> Loses(aim, item, count, flags))
      && o.lost <= o.taken && (item.kind.stackable ==> o.taken <= item.count)
  {
    if aim.index >= aim.to.maxSize {
      MayAddAnywhere(aim.to, aim.index, item, flags, S);
    }
  }

  lemma MayAddAnywhere(c: Item, index: int, item: Item, flags: Flags, S: set<Item>)
    requires LinksOk(S) && c in S && index != INDEX_WHEREEVER
    ensures MayAdd(c, 0, item, flags, S) <==> MayAdd(c, index, item, flags, S)
  {
  }

  /** With limits, a full container gets a longer list exactly when a stack of runes is put at a place that it has,
      and is not only shifted within it. */
  predicate Overflows(from: Item, aim: Aim, item: Item, m: nat)
    reads item, aim.to
  {
    item.kind.stackable && item.kind.rune && aim.index < aim.to.maxSize && !(from == aim.to && m == item.count)
  }

  predicate TooLong(size: nat, size': nat, maxSize: nat) { size' > size && size' > maxSize }

  lemma WhenContainersOverflow(from: Item, aim: Aim, item: Item, count: nat, flags: Flags, tradeItem: Item?,
                               S: set<Item>)
    requires LinksOk(S) && KindsOk(S) && from in S && aim.to in S && item in S && AimOk(aim, item)
    requires !flags.childIsOwner
    requires CanMove(from, aim, item, count, flags, tradeItem, S) && !flags.noLimit
    requires |aim.to.itemlist| >= aim.to.maxSize
    ensures var m := MovedCount(item, count, MaxCount(aim.to, aim.index, item, count, flags, S));
      var o := OutcomeOf(aim, item, m);
      o.arrives && !(from == aim.to && o.leaves) <==> Overflows(from, aim, item, m)
  {
    assert FreeSlots(aim.to) == 0;
    if aim.index != INDEX_WHEREEVER {
      MayAddAnywhere(aim.to, aim.index, item, flags, S);
    }
  }

  /** What can be said of a move before it is made: whether it is, how many pieces can be put there and are taken,
      what becomes of them, whether some get lost, and whether a full container gets a longer list. */
  datatype Plan = Plan(goes: bool, maxCount: nat, m: nat, outcome: Outcome, loses: bool, overflows: bool)

  ghost function PlanOf(from: Item, aim: Aim, item: Item, count: nat, flags: Flags, tradeItem: Item?,
                        S: set<Item>): Plan
    requires LinksOk(S) && from in S && aim.to in S && item in S && (aim.toItem != null ==> aim.toItem in S)
    reads S
  {
    var maxCount := MaxCount(aim.to, aim.index, item, count, flags, S);
    var m := MovedCount(item, count, maxCount);
    Plan(CanMove(from, aim, item, count, flags, tradeItem, S), maxCount, m, OutcomeOf(aim, item, m),
         Loses(aim, item, count, flags), Overflows(from, aim, item, m))
  }

  lemma PlanHolds(from: Item, aim: Aim, item: Item, count: nat, flags: Flags, tradeItem: Item?, S: set<Item>,
                  plan: Plan)
    requires LinksOk(S) && KindsOk(S) && from in S && aim.to in S && item in S && AimOk(aim, item)
    requires !flags.childIsOwner
    requires aim.toItem != null ==> aim.toItem in S
    requires plan == PlanOf(from, aim, item, count, flags, tradeItem, S) && plan.goes
    ensures plan.outcome.lost > 0 <==> plan.loses
    ensures !item.kind.stackable ==> plan.outcome.arrives && plan.outcome.leaves
    ensures !flags.noLimit && |aim.to.itemlist| >= aim.to.maxSize ==>
              (plan.outcome.arrives && !(from == aim.to && plan.outcome.leaves) <==> plan.overflows)
  {
    WhenPiecesGetLost(from, aim, item, count, flags, tradeItem, S);
    if !flags.noLimit && |aim.to.itemlist| >= aim.to.maxSize {
      WhenContainersOverflow(from, aim, item, count, flags, tradeItem, S);
    }
  }

  // ---- the parts of a move

  /** t is s without x. */
  ghost predicate Without(t: seq<Item>, s: seq<Item>, x: Item) {
    exists i :: 0 <= i < |s| && s[i] == x && t == s[..i] + s[i+1..]
  }

  /** A list without the first x in it. */
  function Less(s: seq<Item>, x: Item): seq<Item> {
    if s == [] then [] else if s[0] == x then s[1..] else [s[0]] + Less(s[1..], x)
  }

  lemma {:induction false} WithoutIsLess(t: seq<Item>, s: seq<Item>, i: nat)
    requires Distinct(s) && i < |s| && t == s[..i] + s[i+1..]
    ensures t == Less(s, s[i])
    decreases i
  {
    if i > 0 {
      WithoutIsLess(s[1..][..i-1] + s[1..][i..], s[1..], i - 1);
      assert s[1..][..i-1] == s[1..i] && s[1..][i..] == s[i+1..];
      assert t == [s[0]] + (s[1..i] + s[i+1..]);
    }
  }

  /** Takes m pieces of an item, or all of it, out of its container. */
  method TakePieces(c: Item, item: Item, m: nat, ghost S: set<Item>)
    requires ForestOk(S) && c in S && c.isContainer && item in S && item in c.itemlist && item.count < 256
    requires item.kind.stackable ==> 0 < m <= item.count
    modifies c`itemlist, item`parent, item`count, S`totalWeight
    ensures ForestOk(S)
    ensures CountsOf(S) == old(CountsOf(S))[item := (item.kind, item.count)]
    ensures if item.kind.stackable && m != old(item.count)
            then c.itemlist == old(c.itemlist) && item.parent == c && item.count == old(item.count) - m
            else item.parent == null && item.count == old(item.count) && Without(c.itemlist, old(c.itemlist), item)
  {
    c.RemoveThing(item, m, S);
  }

  /** Puts n more pieces on a stack. */
  method AddPieces(c: Item, toItem: Item, n: nat, ghost S: set<Item>)
    requires ForestOk(S) && c in S && c.isContainer && toItem in S && toItem in c.itemlist
    requires !toItem.kind.subtyped && toItem.count + n < 256
    modifies toItem`kind, toItem`count, toItem`attrs, S`totalWeight
    ensures ForestOk(S)
    ensures toItem.kind == old(toItem.kind) && toItem.attrs == old(toItem.attrs)
    ensures toItem.count == old(toItem.count) + n
    ensures CountsOf(S) == old(CountsOf(S))[toItem := (toItem.kind, toItem.count)]
  {
    c.UpdateThing(toItem, toItem.kind, toItem.count + n, S);
  }

  /** Makes a loose copy of a stack with n pieces. */
  method CloneStack(item: Item, n: nat, ghost S: set<Item>) returns (r: Item)
    requires ForestOk(S)
    ensures fresh(r) && r !in S && r.parent == null && r.itemlist == [] && !r.isContainer
    ensures r.kind == item.kind && r.attrs == item.attrs && r.count == n
    ensures ForestOk(S + {r})
    ensures CountsOf(S + {r}) == CountsOf(S)[r := (r.kind, n)]
  {
    r := new Item(false, false, true, 0, item.kind, n, item.attrs);
    JoinForest(S, r);
  }

  /** The two lists are lists of a forest: no item twice, and none in both. */
  ghost predicate Apart(fromList: seq<Item>, toList: seq<Item>, same: bool) {
    && Distinct(fromList)
    && Distinct(toList)
    && if same then fromList == toList else forall x :: x in fromList ==> x !in toList
  }

  /** Taking an item out keeps the lists apart. */
  lemma ApartTake(fromList: seq<Item>, toList: seq<Item>, same: bool, item: Item, fromList': seq<Item>)
    requires Apart(fromList, toList, same)
    requires fromList' == fromList || Without(fromList', fromList, item)
    ensures Apart(fromList', if same then fromList' else toList, same)
    ensures forall x :: x in fromList' ==> x in fromList
    ensures forall x :: x in fromList && x != item ==> x in fromList'
  {
    if Without(fromList', fromList, item) {
      var i :| 0 <= i < |fromList| && fromList[i] == item && fromList' == fromList[..i] + fromList[i+1..];
      forall x | x in fromList && x != item
        ensures x in fromList'
      {
        var j :| 0 <= j < |fromList| && fromList[j] == x;
        assert fromList'[if j < i then j else j - 1] == x;
      }
    }
  }

  lemma ListsApart(a: Item, b: Item, S: set<Item>)
    requires LinksOk(S) && a in S && b in S
    ensures Apart(a.itemlist, b.itemlist, a == b)
    ensures forall x :: x in a.itemlist || x in b.itemlist ==> x in S
  {
    assert LinkOk(a, S) && LinkOk(b, S);
  }

  ghost function PiecesIn(c: Item, S: set<Item>, k: Kind): int
    reads S`kind, S`count, c`itemlist
  {
    Pieces(CountsOf(S), c.itemlist, k)
  }

  /** The set of an item that may be null. */
  ghost function Only(x: Item?): set<Item> {
    if x == null then {} else {x}
  }

  lemma PiecesTake(M: Counts, list: seq<Item>, item: Item, left: nat, whole: bool, list': seq<Item>, k: Kind)
    requires Distinct(list) && item in list && item in M
    requires if whole then left == M[item].1 && Without(list', list, item) else list' == list
    ensures Pieces(M[item := (M[item].0, left)], list', k)
         == Pieces(M, list, k) - if M[item].0 != k then 0 else if whole then M[item].1 else M[item].1 - left
  {
    if whole {
      var i :| 0 <= i < |list| && list[i] == item && list' == list[..i] + list[i+1..];
      PiecesWithout(M, list, i, k);
      assert M[item := (M[item].0, left)] == M;
    } else {
      PiecesUpdate(M, list, item, left, k);
    }
  }

  /** The pieces that leave the one list arrive in the other, but for those that get lost; no kind of pieces appears
      or disappears otherwise. */
  ghost predicate Accounts(M: Counts, from: seq<Item>, to: seq<Item>, M': Counts, from': seq<Item>, to': seq<Item>,
                           same: bool, kind: Kind, o: Outcome)
  {
    && (forall k :: Pieces(M', to', k) == Pieces(M, to, k)
          + if k == kind then o.taken - o.lost - (if same then o.taken else 0) else 0)
    && (!same ==> forall k :: Pieces(M', from', k) == Pieces(M, from, k) - if k == kind then o.taken else 0)
    && |to'| == |to| - (if same && o.leaves then 1 else 0) + (if o.arrives then 1 else 0)
    && (!same ==> |from'| == |from| - if o.leaves then 1 else 0)
  }

  // ---- the stages of a move, each with what it does to the pieces in either container

  method TakeStage(from: Item, to: Item, item: Item, m: nat, ghost S: set<Item>,
                   ghost M0: Counts, ghost from0: seq<Item>, ghost to0: seq<Item>)
    requires M0 == CountsOf(S) && from0 == from.itemlist && to0 == to.itemlist
    requires ForestOk(S) && from in S && from.isContainer && to in S && item in S && item in from.itemlist
    requires item.count < 256 && (item.kind.stackable ==> 0 < m <= item.count)
    modifies from`itemlist, item`parent, item`count, S`totalWeight
    ensures ForestOk(S)
    ensures if item.kind.stackable && m != old(item.count)
            then from.itemlist == old(from.itemlist) && item.parent == from && item.count == old(item.count) - m
            else
              item.parent == null && item.count == old(item.count) && from.itemlist == Less(old(from.itemlist), item)
    ensures forall x :: x != item && x in old(to.itemlist) ==> x in to.itemlist
    ensures |from.itemlist| == |old(from.itemlist)| - if !item.kind.stackable || m == old(item.count) then 1 else 0
    ensures old(StacksOk(from.itemlist) && StacksOk(to.itemlist)) ==> StacksOk(from.itemlist) && StacksOk(to.itemlist)
    ensures Changed(M0, from0, CountsOf(S), from.itemlist, item.kind,
                    -if item.kind.stackable then m else old(item.count))
    ensures from != to ==> Changed(M0, to0, CountsOf(S), to.itemlist, item.kind, 0)
  {
    ListsApart(from, to, S);
    TakePieces(from, item, m, S);
    ApartTake(from0, to0, from == to, item, from.itemlist);
    if !(item.kind.stackable && m != M0[item].1) {
      ghost var i :| 0 <= i < |from0| && from0[i] == item && from.itemlist == from0[..i] + from0[i+1..];
      WithoutIsLess(from.itemlist, from0, i);
    }
    forall k
      ensures Pieces(CountsOf(S), from.itemlist, k) == Pieces(M0, from0, k)
                        - if k != item.kind then 0 else if item.kind.stackable then m else item.count
    {
      PiecesTake(M0, from0, item, item.count, !item.kind.stackable || m == M0[item].1, from.itemlist, k);
    }
    forall k | from != to
      ensures Pieces(CountsOf(S), to.itemlist, k) == Pieces(M0, to0, k)
    {
      PiecesUpdate(M0, to0, item, item.count, k);
    }
  }

  method MergeStage(from: Item, to: Item, toItem: Item, n: nat, ghost S: set<Item>)
    requires ForestOk(S) && from in S && to in S && to.isContainer && toItem in S && toItem in to.itemlist
    requires !toItem.kind.subtyped && toItem.count + n < 256
    modifies toItem`kind, toItem`count, toItem`attrs, S`totalWeight
    ensures ForestOk(S)
    ensures toItem.kind == old(toItem.kind) && toItem.attrs == old(toItem.attrs)
    ensures toItem.count == old(toItem.count) + n
    ensures forall k :: PiecesIn(to, S, k) == old(PiecesIn(to, S, k)) + if k == toItem.kind then n else 0
    ensures from != to ==> forall k :: PiecesIn(from, S, k) == old(PiecesIn(from, S, k))
  {
    ghost var M0 := CountsOf(S);
    ListsApart(from, to, S);
    AddPieces(to, toItem, n, S);
    forall k
      ensures PiecesIn(to, S, k) == Pieces(M0, to.itemlist, k) + if k == toItem.kind then n else 0
      ensures from != to ==> PiecesIn(from, S, k) == Pieces(M0, from.itemlist, k)
    {
      PiecesUpdate(M0, to.itemlist, toItem, M0[toItem].1 + n, k);
      PiecesUpdate(M0, from.itemlist, toItem, M0[toItem].1 + n, k);
    }
  }

  method CloneStage(from: Item, to: Item, item: Item, n: nat, ghost S: set<Item>) returns (r: Item, ghost S': set<Item>)
    requires ForestOk(S) && from in S && to in S
    ensures fresh(r) && S' == S + {r} && ForestOk(S') && r.parent == null && r.itemlist == [] && !r.isContainer
    ensures r.kind == item.kind && r.attrs == item.attrs && r.count == n
    ensures forall k :: PiecesIn(from, S', k) == PiecesIn(from, S, k)
    ensures forall k :: PiecesIn(to, S', k) == PiecesIn(to, S, k)
  {
    r := CloneStack(item, n, S);
    S' := S + {r};
    ListsApart(from, to, S);
    ghost var M := CountsOf(S);
    forall k
      ensures PiecesIn(from, S', k) == PiecesIn(from, S, k)
      ensures PiecesIn(to, S', k) == PiecesIn(to, S, k)
    {
      PiecesAgree(M, M[r := (r.kind, n)], from.itemlist, k);
      PiecesAgree(M, M[r := (r.kind, n)], to.itemlist, k);
    }
  }

  method AddStage(from: Item, to: Item, index: int, x: Item, ghost S: set<Item>)
    requires ForestOk(S) && from in S && to in S && to.isContainer && x in S && x.parent == null && x !in Around(to, S)
    modifies to`itemlist, x`parent, S`rank, S`totalWeight
    ensures ForestOk(S)
    ensures index < to.maxSize ==> x.parent == to && to.itemlist == [x] + old(to.itemlist)
    ensures index >= to.maxSize ==> x.parent == null && to.itemlist == old(to.itemlist)
    ensures forall k ::
        PiecesIn(to, S, k) == old(PiecesIn(to, S, k)) + if k == x.kind && index < to.maxSize then x.count else 0
    ensures from != to ==> forall k :: PiecesIn(from, S, k) == old(PiecesIn(from, S, k))
  {
    ghost var M, to0 := CountsOf(S), to.itemlist;
    to.AddThing(index, x, S);
    assert CountsOf(S) == M;
    forall k
      ensures PiecesIn(to, S, k) == old(PiecesIn(to, S, k)) + if k == x.kind && index < to.maxSize then x.count else 0
    {
      PiecesConcat(M, [x], to0, k);
    }
  }

  /** Of n pieces a new stack was made; of none, the answer is another. */
  ghost predicate NewStack(moveItem: Item?, kind: Kind, attrs: Attributes, n: int, parent: Item?, none: Item?,
                           S: set<Item>, S': set<Item>)
    reads moveItem
  {
    if n <= 0 then moveItem == none && S' == S
    else
      && moveItem != null && moveItem !in S && S' == S + {moveItem}
      && moveItem.kind == kind && moveItem.attrs == attrs && moveItem.count == n
      && moveItem.parent == parent && !moveItem.isContainer && moveItem.itemlist == []
  }

  /** The list has the item in front, if it arrives. */
  ghost predicate InFront(to: seq<Item>, moveItem: Item?, arrives: bool, to0: seq<Item>) {
    if arrives then moveItem != null && to == [moveItem] + to0 else to == to0
  }

  /** What was taken is put into a container: an item itself; of a stack, what no other stack takes, as a new one.
      The answer is what was put there, or the item if that is nothing. */
  ghost predicate Delivered(item: Item, moveItem: Item?, to: Item, o: Outcome, to0: seq<Item>,
                            S: set<Item>, S': set<Item>)
    reads item, to`itemlist, moveItem
  {
    && InFront(to.itemlist, moveItem, o.arrives, to0)
    && if item.kind.stackable
       then NewStack(moveItem, item.kind, item.attrs, o.taken - o.merged, if o.arrives then to else null, item, S, S')
       else moveItem == item && item.parent == (if o.arrives then to else null) && S' == S
  }

  /** What is left where pieces were taken: a list, and the item itself. */
  ghost function Left(list: seq<Item>, item: Item, o: Outcome): seq<Item> {
    if o.leaves then Less(list, item) else list
  }

  /** How an item looks, apart from what is in it. */
  datatype Look = Look(kind: Kind, attrs: Attributes, parent: Item?, count: int)

  type Looks = map<Item, Look>

  ghost function LooksOf(S: set<Item>): Looks
    reads S`kind, S`attrs, S`parent, S`count
  {
    map x | x in S :: LookOf(x)
  }

  ghost function LookOf(x: Item): Look
    reads x`kind, x`attrs, x`parent, x`count
  {
    Look(x.kind, x.attrs, x.parent, x.count)
  }

  /** How an item looks after a move: the one that is moved is somewhere else, or has lost pieces; the stack aimed at
      may have got some; and the others are as they were. */
  ghost function LookAfter(look: Look, x: Item, item: Item, toItem: Item?, to: Item, o: Outcome): Look {
    if x == item then
      if !look.kind.stackable then look.(parent := if o.arrives then to else null)
      else if o.leaves then look.(parent := null)
      else look.(count := look.count - o.taken)
    else if x == toItem then look.(count := look.count + o.merged)
    else look
  }

  ghost predicate AllLook(L: Looks, L': Looks, item: Item, toItem: Item?, to: Item, o: Outcome) {
    && L'.Keys == L.Keys
    && forall x {:trigger L'[x]} {:trigger x in L} :: x in L ==> L'[x] == LookAfter(L[x], x, item, toItem, to, o)
  }

  /** What a move does to the item that is moved, apart from its place if it is moved as a whole. */
  ghost predicate IsLeft(item: Item, count0: int, from: Item, to: Item, o: Outcome)
    reads item
  {
    && item.count == (if o.leaves then count0 else count0 - o.taken)
    && item.parent == if !item.kind.stackable then (if o.arrives then to else null) else if o.leaves then null else from
  }

  /** A stack, if there is one, has got n more pieces than it had. */
  ghost predicate IsGrown(x: Item?, kind: Kind, attrs: Attributes, count: int, n: nat)
    reads x
  {
    x != null ==> x.kind == kind && x.attrs == attrs && x.count == count + n
  }

  /** Of a kind there are d more pieces in a list, of the others as many as before. */
  ghost predicate Changed(M: Counts, list: seq<Item>, M': Counts, list': seq<Item>, kind: Kind, d: int) {
    forall k {:trigger Pieces(M', list', k)} ::
      Pieces(M', list', k) == Pieces(M, list, k) + if k == kind then d else 0
  }

  /** What is taken out of the one list and then put into the other. */
  lemma AccountsAdd(M: Counts, from: seq<Item>, to: seq<Item>, M1: Counts, from1: seq<Item>, to1: seq<Item>,
                    M': Counts, from': seq<Item>, to': seq<Item>, same: bool, kind: Kind, o: Outcome)
    requires Changed(M, from, M1, from1, kind, -(o.taken as int)) && Changed(M1, to1, M', to', kind, o.taken - o.lost)
    requires if same then to == from && to1 == from1
             else Changed(M, to, M1, to1, kind, 0) && Changed(M1, from1, M', from', kind, 0)
    requires |to'| == |to1| + (if o.arrives then 1 else 0) && |from1| == |from| - (if o.leaves then 1 else 0)
    requires !same ==> |to1| == |to| && |from'| == |from1|
    ensures Accounts(M, from, to, M', from', to', same, kind, o)
  {
    forall k
      ensures Pieces(M', to', k) == Pieces(M, to, k)
                + if k == kind then o.taken - o.lost - (if same then o.taken else 0) else 0
      ensures !same ==> Pieces(M', from', k) == Pieces(M, from, k) - if k == kind then o.taken else 0
    {
      assert Pieces(M1, to1, k) == Pieces(M1, to1, k) && Pieces(M1, from1, k) == Pieces(M1, from1, k);
    }
  }

  /** Puts n pieces like item in front of the list, as a new stack. */
  method PutRest(from: Item, to: Item, index: int, item: Item, n: nat, ghost around: set<Item>, ghost S: set<Item>)
    returns (moveItem: Item?, ghost S': set<Item>)
    requires ForestOk(S) && from in S && to in S && to.isContainer
    requires to in around && around <= S && ClosedUpwards(around) && n <= MAX_STACK
    requires StacksOk(from.itemlist) && StacksOk(to.itemlist)
    modifies to`itemlist, S`rank, S`totalWeight
    ensures ForestOk(S') && S <= S' && fresh(S' - S)
    ensures StacksOk(from.itemlist) && StacksOk(to.itemlist)
    ensures NewStack(moveItem, item.kind, item.attrs, n, if index < to.maxSize then to else null, null, S, S')
    ensures InFront(to.itemlist, moveItem, n > 0 && index < to.maxSize, old(to.itemlist))
    ensures forall k ::
        PiecesIn(to, S', k) == old(PiecesIn(to, S, k)) + if k == item.kind && index < to.maxSize then n else 0
    ensures from != to ==> forall k :: PiecesIn(from, S', k) == old(PiecesIn(from, S, k))
  {
    moveItem, S' := null, S;
    if n > 0 {
      moveItem, S' := CloneStage(from, to, item, n, S);
      AroundWithin(to, around, S');
      AddStage(from, to, index, moveItem, S');
    }
  }

  /** Puts m pieces like item into a container: first onto the stack toItem, what is left over in front of the list. */
  method PutPieces(from: Item, to: Item, index: int, item: Item, m: nat, toItem: Item?, ghost around: set<Item>,
                   ghost S: set<Item>)
    returns (moveItem: Item?, ghost S': set<Item>)
    requires ForestOk(S) && KindsOk(S) && from in S && to in S && to.isContainer
    requires to in around && around <= S && ClosedUpwards(around)
    requires item in S && item.kind.stackable && item != toItem && m <= MAX_STACK
    requires toItem != null ==> toItem in S && toItem in to.itemlist
    requires StacksOk(from.itemlist) && StacksOk(to.itemlist)
    modifies to`itemlist, Only(toItem)`kind, Only(toItem)`count, Only(toItem)`attrs
    modifies S`rank, S`totalWeight
    ensures ForestOk(S') && S <= S' && fresh(S' - S)
    ensures StacksOk(from.itemlist) && StacksOk(to.itemlist)
    ensures NewStack(moveItem, item.kind, item.attrs, m - old(Merged(item, toItem, m)),
                     if index < to.maxSize then to else null, null, S, S')
    ensures InFront(to.itemlist, moveItem, m > old(Merged(item, toItem, m)) && index < to.maxSize, old(to.itemlist))
    ensures toItem != null ==> toItem.kind == old(toItem.kind) && toItem.attrs == old(toItem.attrs)
    ensures toItem != null ==> toItem.count == old(toItem.count) + old(Merged(item, toItem, m))
    ensures forall k :: PiecesIn(to, S', k) == old(PiecesIn(to, S, k)) +
              if k != item.kind then 0 else if index < to.maxSize then m else old(Merged(item, toItem, m))
    ensures from != to ==> forall k :: PiecesIn(from, S', k) == old(PiecesIn(from, S, k))
  {
    var n := 0;
    if !item.kind.rune && Equals(item, toItem) {
      n := Min(MAX_STACK - toItem.count, m);
      MergeStage(from, to, toItem, n, S);
    }
    moveItem, S' := PutRest(from, to, index, item, m - n, around, S);
  }

  /** Puts what was taken into a container: m pieces like item, or the item itself. */
  method PutMoved(from: Item, to: Item, index: int, item: Item, m: nat, toItem: Item?, ghost o: Outcome,
                  ghost around: set<Item>, ghost S: set<Item>,
                  ghost M1: Counts, ghost from1: seq<Item>, ghost to1: seq<Item>)
    returns (moveItem: Item?, ghost S': set<Item>)
    requires M1 == CountsOf(S) && from1 == from.itemlist && to1 == to.itemlist
    requires ForestOk(S) && KindsOk(S) && from in S && to in S && to.isContainer
    requires to in around && around <= S && ClosedUpwards(around)
    requires item in S && item !in around && item != toItem
    requires if item.kind.stackable then m <= MAX_STACK else item.parent == null
    requires toItem != null ==> toItem in S && toItem in to.itemlist
    requires StacksOk(from.itemlist) && StacksOk(to.itemlist)
    requires o.merged == Merged(item, toItem, m)
    requires o.arrives == ((item.kind.stackable ==> m > o.merged) && index < to.maxSize)
    requires o.taken == (if item.kind.stackable then m else item.count)
    requires o.lost == if index < to.maxSize then 0 else o.taken - o.merged
    modifies to`itemlist, item`parent, Only(toItem)`kind, Only(toItem)`count, Only(toItem)`attrs
    modifies S`rank, S`totalWeight
    ensures ForestOk(S') && S <= S' && fresh(S' - S)
    ensures StacksOk(from.itemlist) && StacksOk(to.itemlist)
    ensures Delivered(item, moveItem, to, o, to1, S, S')
    ensures toItem != null ==> toItem.kind == old(toItem.kind) && toItem.attrs == old(toItem.attrs)
    ensures toItem != null ==> toItem.count == old(toItem.count) + o.merged
    ensures item.kind.stackable ==> item.parent == old(item.parent)
    ensures Changed(M1, to1, CountsOf(S'), to.itemlist, item.kind, o.taken - o.lost)
    ensures from != to ==> from.itemlist == from1 && Changed(M1, from1, CountsOf(S'), from1, item.kind, 0)
  {
    if item.kind.stackable {
      moveItem, S' := PutPieces(from, to, index, item, m, toItem, around, S);
      if moveItem == null {
        moveItem := item;
      }
    } else {
      moveItem, S' := item, S;
      AroundWithin(to, around, S);
      AddStage(from, to, index, item, S);
    }
    forall k
      ensures Pieces(CountsOf(S'), to.itemlist, k) == Pieces(M1, to1, k)
                + if k == item.kind then o.taken - o.lost else 0
      ensures from != to ==> Pieces(CountsOf(S'), from1, k) == Pieces(M1, from1, k)
    {
      assert Pieces(CountsOf(S'), to.itemlist, k) == PiecesIn(to, S', k);
      assert Pieces(CountsOf(S'), from.itemlist, k) == PiecesIn(from, S', k);
    }
  }

  /** Takes m pieces, or a whole item, from one container to the other. */
  method Transfer(from: Item, to: Item, index: int, item: Item, m: nat, toItem: Item?, ghost o: Outcome,
                  ghost S: set<Item>, ghost M0: Counts, ghost from0: seq<Item>, ghost to0: seq<Item>)
    returns (moveItem: Item?, ghost S': set<Item>)
    requires ForestOk(S) && KindsOk(S) && from in S && from.isContainer && to in S && to.isContainer
    requires item in S && item in from.itemlist && item !in Around(to, S) && item != toItem
    requires toItem != null ==> toItem in S && toItem in to.itemlist
    requires item.count < 256 && (item.kind.stackable ==> 0 < m <= item.count)
    requires StacksOk(from.itemlist) && StacksOk(to.itemlist)
    requires M0 == CountsOf(S) && from0 == from.itemlist && to0 == to.itemlist
    requires o == OutcomeOf(Aim(to, index, toItem), item, m)
    modifies from`itemlist, to`itemlist, item`parent, item`count, Only(toItem)`kind, Only(toItem)`count,
        Only(toItem)`attrs
    modifies S`rank, S`totalWeight
    ensures ForestOk(S') && S <= S' && fresh(S' - S)
    ensures StacksOk(from.itemlist) && StacksOk(to.itemlist)
    // nothing else appears or disappears
    ensures Accounts(M0, from0, to0, CountsOf(S'), from.itemlist, to.itemlist, from == to, old(item.kind), o)
    // and what does is the item itself, or a stack like it
    ensures Delivered(item, moveItem, to, o, if from == to then Left(from0, item, o) else to0, S, S')
    ensures IsLeft(item, old(item.count), from, to, o)
    ensures toItem != null ==> IsGrown(toItem, old(toItem.kind), old(toItem.attrs), old(toItem.count), o.merged)
    ensures from != to ==> from.itemlist == Left(from0, item, o)
  {
    ghost var around := Around(to, S);
    TakeStage(from, to, item, m, S, M0, from0, to0);
    ghost var M1, from1, to1 := CountsOf(S), from.itemlist, to.itemlist;
    moveItem, S' := PutMoved(from, to, index, item, m, toItem, o, around, S, M1, from1, to1);
    AccountsAdd(M0, from0, to0, M1, from1, to1, CountsOf(S'), from.itemlist, to.itemlist, from == to, item.kind, o);
  }

  /** A transfer as it is for all items. */
  method TransferAll(from: Item, to: Item, index: int, item: Item, m: nat, toItem: Item?, ghost o: Outcome,
                     ghost S: set<Item>, ghost M0: Counts, ghost from0: seq<Item>, ghost to0: seq<Item>,
                     ghost L0: Looks)
    returns (moveItem: Item?, ghost S': set<Item>)
    requires ForestOk(S) && KindsOk(S) && from in S && from.isContainer && to in S && to.isContainer
    requires item in S && item in from.itemlist && item !in Around(to, S) && item != toItem
    requires toItem != null ==> toItem in S && toItem in to.itemlist
    requires item.count < 256 && (item.kind.stackable ==> 0 < m <= item.count)
    requires StacksOk(from.itemlist) && StacksOk(to.itemlist)
    requires M0 == CountsOf(S) && from0 == from.itemlist && to0 == to.itemlist && L0 == LooksOf(S)
    requires o == OutcomeOf(Aim(to, index, toItem), item, m)
    modifies from`itemlist, to`itemlist, item`parent, item`count, Only(toItem)`kind, Only(toItem)`count,
        Only(toItem)`attrs
    modifies S`rank, S`totalWeight
    ensures ForestOk(S') && S <= S' && fresh(S' - S)
    ensures StacksOk(from.itemlist) && StacksOk(to.itemlist)
    ensures Accounts(M0, from0, to0, CountsOf(S'), from.itemlist, to.itemlist, from == to, old(item.kind), o)
    ensures Delivered(item, moveItem, to, o, if from == to then Left(from0, item, o) else to0, S, S')
    ensures AllLook(L0, LooksOf(S), item, toItem, to, o)
    ensures from != to ==> from.itemlist == Left(from0, item, o)
  {
    assert LinkOk(from, S);
    moveItem, S' := Transfer(from, to, index, item, m, toItem, o, S, M0, from0, to0);
    forall x | x in S
      ensures LookOf(x) == LookAfter(L0[x], x, item, toItem, to, o)
    {
      assert L0[x] == old(LookOf(x));
      if x != item && x != toItem {
        assert LookOf(x) == L0[x];
      }
    }
  }

  // ---- the whole move

  ghost function ListsOf(S: set<Item>): map<Item, seq<Item>>
    reads S`itemlist
  {
    map x | x in S :: x.itemlist
  }

  /** The pieces a move would take, or why there is none; nothing changes yet. */
  method CheckMove(from: Item, aim: Aim, item: Item, count: nat, flags: Flags, tradeItem: Item?, ghost S: set<Item>)
    returns (ret: ReturnValue, retMaxCount: ReturnValue, m: nat, maxQueryCount: nat)
    requires LinksOk(S) && from in S && aim.to in S && aim.to.isContainer && item in S && item != aim.toItem
    requires !flags.childIsOwner
    ensures maxQueryCount == MaxCount(aim.to, aim.index, item, count, flags, S) || ret != NoError
    ensures ret == NoError <==> CanMove(from, aim, item, count, flags, tradeItem, S)
    ensures ret == NoError ==> m == MovedCount(item, count, maxQueryCount)
    ensures ret == NoError && item.kind.stackable && maxQueryCount < count ==> retMaxCount == ContainerNotEnoughRoom
  {
    m, maxQueryCount, retMaxCount := 0, 0, NoError;
    ret := aim.to.QueryAdd(aim.index, item, count, flags, S);
    if ret != NoError {
      return;
    }
    retMaxCount, maxQueryCount := QueryMaxCount(aim.to, aim.index, item, count, flags, S);
    if retMaxCount != NoError && maxQueryCount == 0 {
      return retMaxCount, retMaxCount, 0, maxQueryCount;
    }
    if item.kind.stackable {
      m := if item.kind.rune then Min(item.count, maxQueryCount) else Min(count, maxQueryCount);
    } else {
      m := maxQueryCount;
    }
    ret := CheckTake(from, aim.to, item, m, flags, tradeItem, S);
  }

  /** Whether so many pieces may be taken, and nothing that is offered in the trade swallows them. */
  method CheckTake(from: Item, to: Item, item: Item, m: nat, flags: Flags, tradeItem: Item?, ghost S: set<Item>)
    returns (ret: ReturnValue)
    requires LinksOk(S) && to in S
    ensures ret == NoError <==> MayTake(from, item, m, flags) && (tradeItem != null ==> tradeItem !in Around(to, S))
  {
    ret := QueryRemove(from, item, m, flags);
    if ret == NoError {
      ret := QuerySwallow(to, tradeItem, S);
    }
  }

  /** Whether nothing that is offered in the trade swallows what goes into a container. */
  method QuerySwallow(to: Item, tradeItem: Item?, ghost S: set<Item>) returns (ret: ReturnValue)
    requires LinksOk(S) && to in S
    ensures ret == if tradeItem != null && tradeItem in Around(to, S) then NotEnoughRoom else NoError
  {
    ret := NoError;
    if tradeItem != null {
      var swallowed := IsAround(tradeItem, to, S);
      if swallowed {
        ret := NotEnoughRoom;
      }
    }
  }

  /** Whether an item is a container or around it. */
  method IsAround(x: Item, c: Item, ghost S: set<Item>) returns (around: bool)
    requires LinksOk(S) && c in S
    ensures around <==> x in Around(c, S)
  {
    var tmpCylinder: Item? := c;
    while tmpCylinder != null
      invariant tmpCylinder != null ==> tmpCylinder in S
      invariant x in Around(c, S) <==> tmpCylinder != null && x in Around(tmpCylinder, S)
      decreases if tmpCylinder == null then 0 else tmpCylinder.rank + 1
    {
      assert LinkOk(tmpCylinder, S);
      if tmpCylinder == x {
        return true;
      }
      tmpCylinder := tmpCylinder.parent;
    }
    return false;
  }

  /** The answer to a move that is made: whether there was room for all the pieces asked for. */
  predicate AllTaken(ret: ReturnValue, kind: Kind, count: nat, maxCount: nat) {
    ret == if kind.stackable && maxCount < count then ContainerNotEnoughRoom else NoError
  }

  /** A move that goes can be made. */
  lemma {:induction false} MoveIsReady(from: Item, aim: Aim, item: Item, count: nat, flags: Flags, tradeItem: Item?,
                                       S: set<Item>, plan: Plan)
    requires LinksOk(S) && from in S && aim.to in S && item in S && (aim.toItem != null ==> aim.toItem in S)
    requires aim.to.unlocked ==> AimOk(aim, item)
    requires plan == PlanOf(from, aim, item, count, flags, tradeItem, S) && plan.goes
    requires !flags.childIsOwner
    ensures item in from.itemlist && item !in Around(aim.to, S) && item != aim.toItem
    ensures item.kind.stackable ==> 0 < plan.m <= item.count
    ensures aim.toItem != null ==> aim.toItem in aim.to.itemlist
    ensures plan.outcome == OutcomeOf(Aim(aim.to, aim.index, aim.toItem), item, plan.m)
  {
  }

  /** Whether a move goes, the answer if it does, and the pieces it takes. */
  method CheckPlan(from: Item, aim: Aim, item: Item, count: nat, flags: Flags, tradeItem: Item?, ghost S: set<Item>,
                   ghost plan: Plan)
    returns (ret: ReturnValue, retMaxCount: ReturnValue, m: nat)
    requires LinksOk(S) && from in S && aim.to in S && aim.to.isContainer && item in S && item != aim.toItem
    requires (aim.toItem != null ==> aim.toItem in S) && (aim.to.unlocked ==> AimOk(aim, item)) && !flags.childIsOwner
    requires plan == PlanOf(from, aim, item, count, flags, tradeItem, S)
    ensures ret == NoError <==> plan.goes
    ensures plan.goes ==> AllTaken(retMaxCount, item.kind, count, plan.maxCount)
    ensures plan.goes ==> item in from.itemlist && item !in Around(aim.to, S)
    ensures plan.goes && item.kind.stackable ==> 0 < m <= item.count
    ensures plan.goes ==> (aim.toItem != null ==> aim.toItem in aim.to.itemlist)
    ensures plan.goes ==> plan.outcome == OutcomeOf(Aim(aim.to, aim.index, aim.toItem), item, m)
  {
    var maxQueryCount;
    ret, retMaxCount, m, maxQueryCount := CheckMove(from, aim, item, count, flags, tradeItem, S);
    if ret == NoError {
      MoveIsReady(from, aim, item, count, flags, tradeItem, S, plan);
      assert m == plan.m;
      retMaxCount := if item.kind.stackable && maxQueryCount < count then retMaxCount else NoError;
    }
  }

  /** The move to a container and a place that are settled. */
  method MoveResolved(from: Item, aim: Aim, item: Item, count: nat, flags: Flags, tradeItem: Item?, ghost S: set<Item>,
                      ghost plan: Plan, ghost M0: Counts, ghost from0: seq<Item>, ghost to0: seq<Item>, ghost L0: Looks)
    returns (ret: ReturnValue, moveItem: Item?, ghost S': set<Item>)
    requires ForestOk(S) && KindsOk(S) && from in S && from.isContainer && aim.to in S && aim.to.isContainer
    requires item in S && item.count < 256 && !flags.childIsOwner && item != aim.toItem
    requires (aim.toItem != null ==> aim.toItem in S) && (aim.to.unlocked ==> AimOk(aim, item))
    requires StacksOk(from.itemlist) && StacksOk(aim.to.itemlist)
    requires plan == PlanOf(from, aim, item, count, flags, tradeItem, S)
    requires M0 == CountsOf(S) && from0 == from.itemlist && to0 == aim.to.itemlist && L0 == LooksOf(S)
    modifies from`itemlist, aim.to`itemlist, item`parent, item`count
    modifies Only(aim.toItem)`kind, Only(aim.toItem)`count, Only(aim.toItem)`attrs
    modifies S`rank, S`totalWeight
    ensures ForestOk(S') && S <= S' && fresh(S' - S)
    ensures !plan.goes ==> ret != NoError && S' == S && ListsOf(S) == old(ListsOf(S))
    ensures plan.goes ==> AllTaken(ret, old(item.kind), count, plan.maxCount)
    ensures plan.goes ==>
              Accounts(M0, from0, to0, CountsOf(S'), from.itemlist, aim.to.itemlist, from == aim.to, old(item.kind),
                       plan.outcome)
    ensures plan.goes ==> Delivered(item, moveItem, aim.to, plan.outcome,
                                    if from == aim.to then Left(from0, item, plan.outcome) else to0, S, S')
    ensures if plan.goes then AllLook(L0, LooksOf(S), item, aim.toItem, aim.to, plan.outcome) else LooksOf(S) == L0
    ensures plan.goes && from != aim.to ==> from.itemlist == Left(from0, item, plan.outcome)
    ensures StacksOk(from.itemlist) && StacksOk(aim.to.itemlist)
  {
    S', moveItem := S, null;
    var retMaxCount, m;
    ret, retMaxCount, m := CheckPlan(from, aim, item, count, flags, tradeItem, S, plan);
    if ret == NoError {
      moveItem, S' := TransferAll(from, aim.to, aim.index, item, m, aim.toItem, plan.outcome, S, M0, from0, to0, L0);
      ret := retMaxCount;
    }
  }

  /** The move, unless the item is there already. */
  method MoveUnlessThere(from: Item, aim: Aim, item: Item, count: nat, flags: Flags, tradeItem: Item?,
                         ghost S: set<Item>, ghost plan: Plan,
                         ghost M0: Counts, ghost from0: seq<Item>, ghost to0: seq<Item>, ghost L0: Looks)
    returns (ret: ReturnValue, moveItem: Item?, ghost S': set<Item>)
    requires ForestOk(S) && KindsOk(S) && from in S && from.isContainer && aim.to in S && aim.to.isContainer
    requires item in S && item.count < 256 && !flags.childIsOwner
    requires (aim.toItem != null ==> aim.toItem in S) && (aim.to.unlocked ==> AimOk(aim, item))
    requires StacksOk(from.itemlist) && StacksOk(aim.to.itemlist)
    requires plan == PlanOf(from, aim, item, count, flags, tradeItem, S)
    requires M0 == CountsOf(S) && from0 == from.itemlist && to0 == aim.to.itemlist && L0 == LooksOf(S)
    modifies from`itemlist, aim.to`itemlist, item`parent, item`count
    modifies Only(aim.toItem)`kind, Only(aim.toItem)`count, Only(aim.toItem)`attrs
    modifies S`rank, S`totalWeight
    ensures ForestOk(S') && S <= S' && fresh(S' - S)
    ensures !plan.goes ==> S' == S && ListsOf(S) == old(ListsOf(S))
    ensures !plan.goes ==> (ret == NoError <==> item == aim.toItem)
    ensures plan.goes ==> AllTaken(ret, old(item.kind), count, plan.maxCount)
    ensures plan.goes ==>
              Accounts(M0, from0, to0, CountsOf(S'), from.itemlist, aim.to.itemlist, from == aim.to, old(item.kind),
                       plan.outcome)
    ensures plan.goes ==> Delivered(item, moveItem, aim.to, plan.outcome,
                                    if from == aim.to then Left(from0, item, plan.outcome) else to0, S, S')
    ensures if plan.goes then AllLook(L0, LooksOf(S), item, aim.toItem, aim.to, plan.outcome) else LooksOf(S) == L0
    ensures plan.goes && from != aim.to ==> from.itemlist == Left(from0, item, plan.outcome)
    ensures StacksOk(from.itemlist) && StacksOk(aim.to.itemlist)
    ensures plan.goes ==> (plan.outcome.lost > 0 <==> plan.loses)
    ensures plan.goes && !old(item.kind).stackable ==> plan.outcome.arrives && plan.outcome.leaves
    ensures plan.goes && !flags.noLimit ==>
              (TooLong(|to0|, |aim.to.itemlist|, aim.to.maxSize) <==> |to0| >= aim.to.maxSize && plan.overflows)
  {
    if item == aim.toItem {
      return NoError, null, S;
    }
    if plan.goes {
      PlanHolds(from, aim, item, count, flags, tradeItem, S, plan);
    }
    ret, moveItem, S' := MoveResolved(from, aim, item, count, flags, tradeItem, S, plan, M0, from0, to0, L0);
  }

  /** Moves an item, or some pieces of it, from one container to another, or within one. Where it goes, whether it does
      and what becomes of the pieces is settled beforehand: aim, flags' and plan say it. */
  method InternalMoveItem(from: Item, toCylinder: Item, index: int, item: Item, count: nat, flags: Flags,
                          autoStackItems: bool, tradeItem: Item?, ghost S: set<Item>,
                          ghost aim: Aim, ghost flags': Flags, ghost plan: Plan)
    returns (ret: ReturnValue, moveItem: Item?, ghost S': set<Item>)
    requires ForestOk(S) && KindsOk(S) && from in S && from.isContainer && toCylinder in S && toCylinder.isContainer
    requires item in S && item.count < 256 && !flags.childIsOwner
    requires forall c :: c in S ==> StacksOk(c.itemlist)
    requires (aim, flags') == Resolved(toCylinder, index, item, flags, autoStackItems, MAP_MAX_LAYERS, S)
    requires plan == PlanOf(from, aim, item, count, flags', tradeItem, S)
    modifies S`itemlist, S`parent, S`count, S`kind, S`attrs, S`rank, S`totalWeight
    ensures ForestOk(S') && S <= S' && fresh(S' - S)
    // an error, or a silent no for an item that is there already, leaves everything as it was
    ensures !plan.goes ==> S' == S && ListsOf(S) == old(ListsOf(S)) && LooksOf(S) == old(LooksOf(S))
    ensures !plan.goes ==> (ret == NoError <==> item == aim.toItem)
    ensures plan.goes ==> AllTaken(ret, old(item.kind), count, plan.maxCount)
    // the pieces that leave the one container arrive in the other, but for those that get lost
    ensures plan.goes ==>
              Accounts(old(CountsOf(S)), old(from.itemlist), old(aim.to.itemlist),
                       CountsOf(S'), from.itemlist, aim.to.itemlist, from == aim.to, old(item.kind), plan.outcome)
    // what arrives is the item itself, in front of the list; or, of a stack, a new one like it with what is left over
    ensures plan.goes ==>
              Delivered(item, moveItem, aim.to, plan.outcome,
                        if from == aim.to then Left(old(from.itemlist), item, plan.outcome) else old(aim.to.itemlist),
                        S, S')
    ensures plan.goes && !item.kind.stackable ==> plan.outcome.arrives && plan.outcome.leaves
    // and the rest stays as it was
    ensures plan.goes ==> AllLook(old(LooksOf(S)), LooksOf(S), item, aim.toItem, aim.to, plan.outcome)
    ensures plan.goes && from != aim.to ==> from.itemlist == Left(old(from.itemlist), item, plan.outcome)
    ensures plan.goes ==> forall c :: c in S && c != from && c != aim.to ==> c.itemlist == old(c.itemlist)
    // when pieces get lost
    ensures plan.goes ==> (plan.outcome.lost > 0 <==> plan.loses)
    // no stack grows above the limit
    ensures plan.goes ==> StacksOk(from.itemlist) && StacksOk(aim.to.itemlist)
    // when a container gets more than it has room for
    ensures plan.goes && !flags'.noLimit ==>
              (TooLong(|old(aim.to.itemlist)|, |aim.to.itemlist|, aim.to.maxSize) <==>
               |old(aim.to.itemlist)| >= aim.to.maxSize && plan.overflows)
  {
    var to, index', toItem, fl := Resolve(toCylinder, index, item, flags, autoStackItems, S, (aim, flags'));
    ghost var M0, from0, to0, L0 := old(CountsOf(S)), old(from.itemlist), old(to.itemlist), old(LooksOf(S));
    ret, moveItem, S' := MoveUnlessThere(from, Aim(to, index', toItem), item, count, fl, tradeItem, S,
                                         plan, M0, from0, to0, L0);
  }
}
