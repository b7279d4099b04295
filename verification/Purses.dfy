/** Purses, from which prices are paid. */
module Purses {
  import opened Basics
  import opened Coins
  import opened Payout
  import opened Giving
  import opened Paying

  /** The coins in a cylinder, with its free places, and those on the tile it is on. */
  class Purse {
    var stacks: seq<Stack>
    var free: nat
    var tile: seq<Stack>
    const litter: nat
    const takes: Takes

    constructor (hd: Holding, takes: Takes)
      ensures View() == hd && this.takes == takes
    {
      stacks, free, tile, litter := hd.held.stacks, hd.held.free, hd.ground.coins, hd.ground.litter;
      this.takes := takes;
    }

    function View(): Holding
      reads this
    {
      Holding(Held(stacks, free), Ground(tile, litter))
    }

    /** The pieces there is room for, asked of all stacks and free places. */
    method QueryMaxCount(unit: nat) returns (maxQueryCount: nat)
      ensures maxQueryCount == Room(View().held, unit, takes)
    {
      var n: nat := 0;
      for i := 0 to |stacks|
        invariant n == RoomOnStacks(stacks[..i], unit, takes)
      {
        assert stacks[..i+1][..i] == stacks[..i];
        if stacks[i].unit == unit && 0 < stacks[i].count < MAX_STACK && takes(i) {
          n := n + MAX_STACK - stacks[i].count;
        }
      }
      assert stacks[..|stacks|] == stacks;
      maxQueryCount := free * 100 + n;
    }

    /** Puts new coins into the cylinder, unless it refuses them; some of them may be lost. */
    method InternalAddItem(unit: nat, count: nat, place: Place) returns (added: bool, ghost lost: nat)
      modifies this`stacks, this`free
      ensures added == !Refuses(old(View()).held, unit, count, place, takes)
      ensures if added then (View().held, lost) == Put(old(View()).held, unit, count, place, takes)
              else View() == old(View()) && lost == 0
      ensures |stacks| + free == old(|stacks| + free)
      decreases place, 1
    {
      added, lost := false, 0;
      if !Refuses(View().held, unit, count, place, takes) {
        PutKeepsPlaces(View().held, unit, count, place, takes, Put(View().held, unit, count, place, takes).0);
      }
      if place.Beside? {
        if free > 0 {
          stacks, free, added := stacks + [Stack(unit, count)], free - 1, true;
        }
      } else if place.Onto? {
        if place.id < |stacks| && CanStack(stacks[place.id], unit) {
          var maxQueryCount := QueryMaxCount(unit);
          if place.inSlot || maxQueryCount >= count {
            added := true;
            ghost var h := View().held;
            lost := AddOnto(unit, count, place, maxQueryCount, h, Put(h, unit, count, place, takes));
          }
        }
      }
    }

    /** Merges coins with a stack, then adds the remainder by itself; what there is no room for is lost, and so is
        the remainder if it is refused. */
    method AddOnto(unit: nat, count: nat, place: Place, maxQueryCount: nat, ghost h: Held, ghost end: (Held, nat))
      returns (ghost lost: nat)
      requires h == View().held && place.Onto? && !Refuses(h, unit, count, place, takes)
      requires maxQueryCount == Room(h, unit, takes) && end == Put(h, unit, count, place, takes)
      modifies this`stacks, this`free
      ensures (View().held, lost) == end
      decreases place, 0
    {
      var m := Min(count, maxQueryCount);
      var s := stacks[place.id];
      var n := Min(MAX_STACK - s.count, m);
      stacks := stacks[place.id := s.(count := s.count + n)];
      assert View().held == PutOn(h, place.id, n);
      ghost var h' := View().held;
      var left := m - n;
      ghost var more := left;
      if left > 0 {
        var added;
        added, more := InternalAddItem(unit, left, place.rest);
        more := if added then more else left;
      }
      lost := count - m + more;
      PutOntoEnds(h, unit, count, place, takes, maxQueryCount, n, left, h', (View().held, more));
    }

    /** Puts coins on the tile, if it takes any more. */
    method DropOnTile(unit: nat, count: nat) returns (ok: bool)
      modifies this`tile
      ensures ok == !IsFull(old(View()).ground)
      ensures View().ground == if ok then Drop(old(View()).ground, unit, count) else old(View()).ground
    {
      if |tile| + litter >= TILE_LIMIT {
        return false;
      }
      ok := true;
      var n := 0;
      if |tile| > 0 {
        var top := tile[|tile|-1];
        if top.unit == unit && top.count < MAX_STACK {
          n := Min(MAX_STACK - top.count, count);
          tile := tile[|tile|-1 := Stack(unit, top.count + n)];
        }
      }
      if n < count || n == 0 {
        tile := tile + [Stack(unit, count - n)];
      }
    }

    method GiveCoins(unit: nat, count: nat, place: Place) returns (ghost lost: nat)
      modifies this
      ensures (View(), lost) == Give(old(View()), Batch(unit, count), place, takes)
    {
      var added;
      added, lost := InternalAddItem(unit, count, place);
      if !added {
        var ok := DropOnTile(unit, count);
        lost := if ok then 0 else count;
      }
    }

    /** Gives the first of the batches that are left; end is how it ends in all, lost is what was lost before. */
    method GiveNext(unit: nat, count: nat, place: Place, ghost batches: seq<Batch>, ghost all: nat -> Place,
                    ghost k: nat, ghost end: (Holding, nat), ghost lost: nat)
      returns (ghost lost': nat)
      requires batches != [] && batches[0] == Batch(unit, count) && place == all(k)
      requires end == Plus(lost, GiveAll(View(), batches, all, k, takes))
      modifies this
      ensures end == Plus(lost', GiveAll(View(), batches[1..], all, k + 1, takes))
    {
      ghost var before := View();
      ghost var pieces := GiveCoins(unit, count, place);
      assert batches == [batches[0]] + batches[1..];
      GiveFirst(before, batches[0], batches[1..], all, k, takes, View(), pieces);
      lost' := lost + ValueOf(unit, pieces);
    }

    /** Pays an amount out in coins; lost is the worth of those that end up nowhere. */
    method AddMoney(money: nat, place: nat -> Place) returns (ghost lost: nat)
      modifies this
      ensures (View(), lost) == GiveAll(old(View()), if money == 0 then [] else Batches(money), place, 0, takes)
      // every new stack takes a free place
      ensures |stacks| + free == old(|stacks| + free)
    {
      GiveAllKeepsPlaces(View(), if money == 0 then [] else Batches(money), place, 0, takes);
      lost := 0;
      if money == 0 {
        return;
      }
      ghost var end := GiveAll(View(), Batches(money), place, 0, takes);
      var k;
      k, lost := AddCrystals(Crystals(money), place, SmallBatches(AfterCrystals(money)), end);
      k, lost := AddPlatinum(AfterCrystals(money), place, k, end, lost);
      lost := AddGold(AfterCrystals(money), place, k, end, lost);
    }

    /** Crystal coins, a hundred at a time; k counts the stacks, small is what comes after. */
    method AddCrystals(coins: nat, place: nat -> Place, ghost small: seq<Batch>, ghost end: (Holding, nat))
      returns (k: nat, ghost lost: nat)
      requires end == GiveAll(View(), CrystalBatches(coins) + small, place, 0, takes)
      modifies this
      ensures end == Plus(lost, GiveAll(View(), small, place, k, takes))
    {
      ghost var batches := CrystalBatches(coins) + small;
      var crystalCoins: nat := coins;
      k, lost := 0, 0;
      while crystalCoins > 0
        invariant batches == CrystalBatches(crystalCoins) + small
        invariant end == Plus(lost, GiveAll(View(), batches, place, k, takes))
      {
        var count := Min(100, crystalCoins);
        ghost var rest := MoreCrystals(crystalCoins, batches, small);
        assert batches[1..] == rest;
        lost := GiveNext(CRYSTAL, count, place(k), batches, place, k, end, lost);
        k, batches := k + 1, rest;
        crystalCoins := crystalCoins - count;
      }
      assert CrystalBatches(0) + small == small;
    }

    /** Platinum coins for what crystal coins leave. */
    method AddPlatinum(money: nat, place: nat -> Place, k: nat, ghost end: (Holding, nat), ghost before: nat)
      returns (k': nat, ghost lost: nat)
      requires end == Plus(before, GiveAll(View(), SmallBatches(money), place, k, takes))
      modifies this
      ensures end == Plus(lost, GiveAll(View(), GoldBatches(money), place, k', takes))
    {
      k', lost := k, before;
      var platinumCoins := money / 100 % UINT16;
      if platinumCoins != 0 {
        assert SmallBatches(money)[1..] == GoldBatches(money);
        lost := GiveNext(PLATINUM, Pieces(platinumCoins), place(k), SmallBatches(money), place, k, end, before);
        k' := k + 1;
      } else {
        assert SmallBatches(money) == GoldBatches(money);
      }
    }

    /** Gold coins for what platinum coins leave. */
    method AddGold(money: nat, place: nat -> Place, k: nat, ghost end: (Holding, nat), ghost before: nat)
      returns (ghost lost: nat)
      requires end == Plus(before, GiveAll(View(), GoldBatches(money), place, k, takes))
      modifies this
      ensures end == (View(), lost)
    {
      lost := before;
      var rest := money - money / 100 % UINT16 * 100;
      if rest != 0 {
        lost := GiveNext(GOLD, Pieces(rest % UINT16), place(k), GoldBatches(money), place, k, end, before);
        assert GoldBatches(money)[1..] == [];
      }
    }

    method RemoveCoins(id: nat, count: nat)
      requires id < |stacks| && count <= stacks[id].count
      modifies this`stacks, this`free
      ensures View().held == Without(old(View()).held, id, count)
    {
      if count == stacks[id].count {
        free := free + 1;
      }
      stacks := stacks[id := stacks[id].(count := stacks[id].count - count)];
    }

    /** Gives the change for the pieces of a stack that pay for the rest, then takes them. */
    method BreakStack(id: nat, money: nat, place: nat -> Place) returns (ghost lost: nat)
      requires Valid(View().held) && id < |stacks| && 0 < money < stacks[id].Worth()
      modifies this
      ensures (View(), lost) == Break(old(View()), id, money, place, takes)
    {
      var removeCount, change := RemoveCount(stacks[id], money), Change(stacks[id], money);
      ghost var s := stacks[id];
      BatchesAre(change);
      GiveAllAdds(View(), Batches(change), place, 0, takes);
      lost := AddMoney(change, place);
      assert Grown(s, stacks[id]);
      RemoveCoins(id, removeCount);
    }

    /** Takes coins for an amount, stack by stack, until one of them is enough. */
    method TakeCoins(ids: seq<nat>, price: nat, place: nat -> Place) returns (ghost lost: nat)
      requires Valid(View().held) && InOrder(stacks, ids) && 0 < price <= Total(stacks)
      modifies this
      ensures (View(), lost) == Take(old(View()), ids, price, place, takes)
    {
      lost := 0;
      var money, n := price, 0;
      ghost var due := TakeWhole(View(), ids, price);
      assert ids[0..] == ids;
      while n < |ids|
        invariant 0 <= n <= |ids| && 0 < money <= Total(stacks) && lost == 0
        invariant Valid(View().held) && InOrder(stacks, ids[n..]) && TakeWhole(View(), ids[n..], money) == due
      {
        var id := ids[n];
        assert ids[n..][0] == id && ids[n..][1..] == ids[n+1..];
        var worth := stacks[id].Worth();
        if worth > money {
          lost := BreakStack(id, money, place);
          return;
        }
        ghost var before := View();
        RemoveCoins(id, stacks[id].count);
        FirstGone(before, ids[n..], View(), worth);
        if worth == money {
          return;
        }
        money := money - worth;
        n := n + 1;
      }
      SomeStack(stacks, ids[n..]);
    }

    /** Pays a price with the coins in the cylinder, whose slots have so many free places besides those in bags. */
    method RemoveMoney(price: nat, cylinder: seq<Thing>, slots: nat, place: nat -> Place)
      returns (ok: bool, ghost lost: nat, ghost ids: seq<nat>)
      requires Valid(View().held) && AllOnce(stacks, cylinder) && free == slots + FreePlaces(cylinder)
      modifies this
      ensures ok == (old(Total(stacks)) >= price)
      ensures !ok || price == 0 ==> View() == old(View()) && lost == 0
      // what is taken, and what is lost of the change, is settled beforehand
      ensures ok && price > 0 ==>
                && InOrder(old(stacks), ids)
                && (View(), lost) == Take(old(View()), ids, price, place, takes)
                && (lost == 0 <==> ChangeArrives(old(View()), ids, price, place, takes))
      // the worth falls by the price, and by what is lost; never by more than a crystal coin is worth
      ensures ok ==> View().Worth() + price + lost == old(View()).Worth() && lost <= CRYSTAL
      ensures SmallestFirst(old(stacks), stacks)
      // stacks that are gone leave a place, new ones take one
      ensures InUse(stacks) + free == old(InUse(stacks) + free)
    {
      lost, ids := 0, [];
      if price == 0 {
        return true, 0, [];
      }
      var found, moneyCount := Gather(stacks, cylinder);
      if moneyCount < price {
        return false, 0, [];
      }
      ok, ids := true, found;
      ghost var before := View();
      TakeKeepsPlaces(before, ids, price, place, takes);
      lost := TakeCoins(found, price, place);
      ghost var k := TakePays(before, ids, price, place, takes, View(), lost);
      SettledInOrder(before.held.stacks, stacks, ids, k);
    }
  }
}
