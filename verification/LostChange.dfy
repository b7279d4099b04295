/** When change gets lost: what is enough for it not to be, and inputs for which it is. */
module LostChange {
  import opened Basics
  import opened Coins
  import opened Payout
  import opened Giving
  import opened Paying

  /** No stack takes more of such coins. */
  ghost predicate NoneStack(h: Held, unit: nat) {
    forall i :: 0 <= i < |h.stacks| ==> !CanStack(h.stacks[i], unit)
  }

  /** Coins that join no stack go to a place of their own, in the cylinder or on the tile. */
  lemma NewStackArrives(hd: Holding, b: Batch, place: Place, takes: Takes, hd': Holding)
    requires NoneStack(hd.held, b.unit) && !IsFull(hd.ground) && hd' == Give(hd, b, place, takes).0
    ensures Arrives(hd, b, place, takes)
    ensures hd'.held.stacks == hd.held.stacks || hd'.held.stacks == hd.held.stacks + [Stack(b.unit, b.count)]
    ensures |hd'.ground.coins| <= |hd.ground.coins| + 1 && hd'.ground.litter == hd.ground.litter
  {
  }

  /** So does a single coin that joins one. */
  lemma OneCoinArrives(hd: Holding, unit: nat, place: Place, takes: Takes)
    requires !IsFull(hd.ground) && forall id :: takes(id)
    ensures Arrives(hd, Batch(unit, 1), place, takes)
  {
    if place.Onto? && place.id < |hd.held.stacks| && CanStack(hd.held.stacks[place.id], unit) {
      RoomForOne(hd.held.stacks, place.id, unit, takes);
    }
  }

  lemma {:induction false} RoomForOne(stacks: seq<Stack>, id: nat, unit: nat, takes: Takes)
    requires id < |stacks| && CanStack(stacks[id], unit) && takes(id)
    ensures RoomOnStacks(stacks, unit, takes) > 0
  {
    if id < |stacks| - 1 {
      RoomForOne(stacks[..|stacks|-1], id, unit, takes);
    }
  }

  /** Up to a crystal coin no counter runs over. */
  lemma ChangeBatches(change: nat)
    requires 0 < change < CRYSTAL
    ensures Batches(change) ==
      (if change < 100 then [] else [Batch(PLATINUM, change / 100)]) +
          if change % 100 == 0 then [] else [Batch(GOLD, change % 100)]
  {
    assert Crystals(change) == 0 && AfterCrystals(change) == change;
    SmallCounts(change, change / 100, change % 100);
  }

  lemma SmallCounts(change: nat, platinum: nat, gold: nat)
    requires platinum < 100 && gold < 100 && change == platinum * 100 + gold
    ensures SmallBatches(change) ==
      (if platinum == 0 then [] else [Batch(PLATINUM, platinum)]) + if gold == 0 then [] else [Batch(GOLD, gold)]
  {
    assert change / 100 == platinum && platinum % UINT16 == platinum;
    assert GoldBatches(change) == if gold == 0 then [] else [Batch(GOLD, gold)];
  }

  lemma CrystalBatch()
    ensures Batches(CRYSTAL) == [Batch(CRYSTAL, 1)]
  {
    assert Crystals(CRYSTAL) == 1 && AfterCrystals(CRYSTAL) == 0;
    assert CrystalBatches(0) == [];
    assert CrystalBatches(1) == [Batch(CRYSTAL, 1)] + CrystalBatches(0);
  }

  /** Where the stack that is broken is worth least, no stack takes coins of smaller change. */
  lemma NothingSmaller(stacks: seq<Stack>, ids: seq<nat>, unit: nat)
    requires InOrder(stacks, ids) && ids != [] && IsCoin(unit) && unit < stacks[ids[0]].unit
    requires forall i :: 0 <= i < |stacks| ==> IsCoin(stacks[i].unit)
    ensures forall i :: 0 <= i < |stacks| ==> !CanStack(stacks[i], unit)
  {
    assert Listed(stacks, ids, ids[0]);
    forall i | 0 <= i < |stacks|
      ensures !CanStack(stacks[i], unit)
    {
      assert Listed(stacks, ids, i);
      if i in ids {
        var k :| 0 <= k < |ids| && ids[k] == i;
        assert stacks[ids[0]].unit <= stacks[ids[0]].Worth() <= stacks[i].Worth();
      }
    }
  }

  lemma SmallChangeArrives(hd: Holding, ids: seq<nat>, money: nat, place: nat -> Place, takes: Takes)
    requires Valid(hd.held) && InOrder(hd.held.stacks, ids) && ids != [] && 0 < money < hd.held.stacks[ids[0]].Worth()
    requires |hd.ground.coins| + hd.ground.litter + 1 < TILE_LIMIT && forall id :: takes(id)
    ensures BreakArrives(hd, ids[0], money, place, takes)
  {
    var s := hd.held.stacks[ids[0]];
    var change := Change(s, money);
    if change == CRYSTAL {
      CrystalBatch();
    } else {
      ChangeBatches(change);
    }
    if change == s.unit {
      OneCoinArrives(hd, s.unit, place(0), takes);
    } else {
      var gold := if change % 100 == 0 then [] else [Batch(GOLD, change % 100)];
      NothingSmaller(hd.held.stacks, ids, GOLD);
      if change < 100 {
        GoldArrives(hd, gold, place, 0, takes);
      } else {
        var b := Batch(PLATINUM, change / 100);
        NothingSmaller(hd.held.stacks, ids, PLATINUM);
        var hd' := Give(hd, b, place(0), takes).0;
        NewStackArrives(hd, b, place(0), takes, hd');
        GoldArrives(hd', gold, place, 1, takes);
        assert ([b] + gold)[1..] == gold;
      }
    }
  }

  lemma {:induction false} GoldArrives(hd: Holding, gold: seq<Batch>, place: nat -> Place, k: nat, takes: Takes)
    requires NoneStack(hd.held, GOLD) && !IsFull(hd.ground)
    requires gold == [] || (|gold| == 1 && gold[0].unit == GOLD)
    ensures AllArrive(hd, gold, place, k, takes)
  {
    if gold != [] {
      NewStackArrives(hd, gold[0], place(k), takes, Give(hd, gold[0], place(k), takes).0);
    }
  }

  /** Wherever the cylinder puts it, no change is lost if the tile takes two more items and every stack is counted
      when the cylinder is asked how many pieces it takes. */
  lemma ChangeIsSafe(hd: Holding, ids: seq<nat>, money: nat, place: nat -> Place, takes: Takes)
    requires Valid(hd.held) && InOrder(hd.held.stacks, ids) && 0 < money <= Total(hd.held.stacks)
    requires |hd.ground.coins| + hd.ground.litter + 1 < TILE_LIMIT && forall id :: takes(id)
    ensures ChangeArrives(hd, ids, money, place, takes)
  {
    var d := TakeWhole(hd, ids, money);
    var k := WholeStacksPay(hd, ids, money, d);
    if d.left > 0 {
      SmallChangeArrives(d.hd, ids[k..], d.left, place, takes);
    }
  }

  lemma {:induction false} RoomOnOne(s: Stack, unit: nat, takes: Takes)
    ensures RoomOnStacks([s], unit, takes) == if CanStack(s, unit) && takes(0) then MAX_STACK - s.count else 0
  {
    assert [s][..0] == [];
    assert RoomOnStacks([], unit, takes) == 0;
  }

  lemma OneInOrder(s: Stack)
    requires s.Worth() > 0
    ensures InOrder([s], [0])
  {
  }

  lemma {:induction false} OneIsBroken(hd: Holding, money: nat, place: nat -> Place, takes: Takes, lost: nat)
    requires Valid(hd.held) && |hd.held.stacks| > 0 && 0 < money < hd.held.stacks[0].Worth()
    requires lost == GiveAll(hd, Batches(Change(hd.held.stacks[0], money)), place, 0, takes).1
    ensures Take(hd, [0], money, place, takes).1 == lost
  {
  }

  /** A crystal coin in the one place there is, on a tile that is full: all but the price of 1 is lost. */
  lemma FullTileLosesChange(place: nat -> Place, takes: Takes)
    requires place(0) == Beside && place(1) == Beside
    ensures var hd := Holding(Held([Stack(CRYSTAL, 1)], 0), Ground([], TILE_LIMIT));
      InOrder(hd.held.stacks, [0]) && Take(hd, [0], 1, place, takes).1 == 9999
  {
    var hd := Holding(Held([Stack(CRYSTAL, 1)], 0), Ground([], TILE_LIMIT));
    OneInOrder(hd.held.stacks[0]);
    assert Change(hd.held.stacks[0], 1) == 9999;
    NothingArrives(hd, place, takes);
    OneIsBroken(hd, 1, place, takes, 9999);
  }

  lemma {:induction false} NothingArrives(hd: Holding, place: nat -> Place, takes: Takes)
    requires hd.held.free == 0 && IsFull(hd.ground) && place(0) == Beside && place(1) == Beside
    ensures GiveAll(hd, Batches(9999), place, 0, takes) == (hd, 9999)
  {
    ChangeBatches(9999);
    var platinum, gold := Batch(PLATINUM, 99), Batch(GOLD, 99);
    assert Batches(9999) == [platinum] + [gold];
    GiveFirst(hd, platinum, [gold], place, 0, takes, hd, 99);
    GiveFirst(hd, gold, [], place, 1, takes, hd, 99);
    assert [gold] == [gold] + [];
  }

  /** With one free place, of the coins for 9999 those of platinum are kept, and those of gold lie on the tile. */
  lemma {:induction false} OnePlaceTakesOneStack(place: nat -> Place, takes: Takes)
    requires place(0) == Beside && place(1) == Beside
    ensures GiveAll(Holding(Held([], 1), Ground([], 0)), Batches(9999), place, 0, takes)
         == (Holding(Held([Stack(PLATINUM, 99)], 0), Ground([Stack(GOLD, 99)], 0)), 0)
  {
    ChangeBatches(9999);
    var platinum, gold := Batch(PLATINUM, 99), Batch(GOLD, 99);
    assert Batches(9999) == [platinum] + [gold];
    var hd := Holding(Held([], 1), Ground([], 0));
    var hd' := Holding(Held([Stack(PLATINUM, 99)], 0), Ground([], 0));
    var hd'' := Holding(Held([Stack(PLATINUM, 99)], 0), Ground([Stack(GOLD, 99)], 0));
    assert [] + [Stack(PLATINUM, 99)] == [Stack(PLATINUM, 99)];
    assert Drop(Ground([], 0), GOLD, 99) == Ground([Stack(GOLD, 99)], 0);
    GiveFirst(hd, platinum, [gold], place, 0, takes, hd', 0);
    GiveFirst(hd', gold, [], place, 1, takes, hd'', 0);
    assert [gold] == [gold] + [];
  }

  /** Fifty platinum coins in a slot, of which the player could not carry fifty more: for a price of 100 two coins
      are taken, and the one that is due is put on the stack and lost, whatever tile it is. */
  lemma HeavyStackLosesChange(place: nat -> Place, takes: Takes, g: Ground)
    requires place(0) == Onto(0, true, Refused) && !takes(0)
    ensures var hd := Holding(Held([Stack(PLATINUM, 50)], 0), g);
      InOrder(hd.held.stacks, [0]) && Take(hd, [0], 100, place, takes).1 == 100
  {
    var hd := Holding(Held([Stack(PLATINUM, 50)], 0), g);
    OneInOrder(hd.held.stacks[0]);
    assert Change(hd.held.stacks[0], 100) == 100;
    ChangeBatches(100);
    var b := Batch(PLATINUM, 1);
    assert Batches(100) == [b] + [];
    RoomOnOne(hd.held.stacks[0], PLATINUM, takes);
    assert PutOn(hd.held, 0, 0) == hd.held;
    GiveFirst(hd, b, [], place, 0, takes, hd, 1);
    OneIsBroken(hd, 100, place, takes, 100);
  }

  /** Fifty platinum coins are paid out to a player whose only room is on a stack of 95: most are lost. */
  lemma {:induction false} SmallRoomLosesCoins(place: nat -> Place, takes: Takes, g: Ground)
    requires place(0) == Onto(0, true, Refused) && takes(0)
    ensures GiveAll(Holding(Held([Stack(PLATINUM, 95)], 0), g), Batches(5000), place, 0, takes).1 == 4500
  {
    var hd := Holding(Held([Stack(PLATINUM, 95)], 0), g);
    ChangeBatches(5000);
    var b := Batch(PLATINUM, 50);
    assert Batches(5000) == [b] + [];
    RoomOnOne(hd.held.stacks[0], PLATINUM, takes);
    var hd' := hd.(held := PutOn(hd.held, 0, 5));
    GiveFirst(hd, b, [], place, 0, takes, hd', 45);
  }
}
