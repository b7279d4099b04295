/** Paying a price with coins: stacks are taken, one is broken, change is given. */
module Paying {
  import opened Basics
  import opened Coins
  import opened Payout
  import opened Giving

  /** A cylinder without so many pieces of a stack; a stack that is gone leaves a place. */
  function Without(h: Held, id: nat, n: nat): Held
    requires id < |h.stacks| && n <= h.stacks[id].count
  {
    Held(h.stacks[id := h.stacks[id].(count := h.stacks[id].count - n)],
         h.free + if n == h.stacks[id].count then 1 else 0)
  }

  lemma WithoutTakes(h: Held, id: nat, n: nat)
    requires Valid(h) && id < |h.stacks| && n <= h.stacks[id].count
    ensures Valid(Without(h, id, n))
    ensures Total(Without(h, id, n).stacks) + ValueOf(h.stacks[id].unit, n) == Total(h.stacks)
  {
    var s := h.stacks[id];
    TotalUpdate(h.stacks, id, s.(count := s.count - n));
  }

  /** The change is given first, then the pieces are taken. */
  function Break(hd: Holding, id: nat, money: nat, place: nat -> Place, takes: Takes): (Holding, nat)
    requires Valid(hd.held) && id < |hd.held.stacks| && 0 < money < hd.held.stacks[id].Worth()
  {
    var s := hd.held.stacks[id];
    var batches := Batches(Change(s, money));
    var (hd', lost) := GiveAll(hd, batches, place, 0, takes);
    BatchesAre(Change(s, money));
    GiveAllAdds(hd, batches, place, 0, takes);
    assert Grown(s, hd'.held.stacks[id]);
    (hd'.(held := Without(hd'.held, id, RemoveCount(s, money))), lost)
  }

  /** All the change arrives. */
  predicate BreakArrives(hd: Holding, id: nat, money: nat, place: nat -> Place, takes: Takes)
    requires id < |hd.held.stacks| && 0 < money < hd.held.stacks[id].Worth()
  {
    AllArrive(hd, Batches(Change(hd.held.stacks[id], money)), place, 0, takes)
  }

  lemma BreakPays(hd: Holding, id: nat, money: nat, place: nat -> Place, takes: Takes, hd': Holding, lost: nat)
    requires Valid(hd.held) && id < |hd.held.stacks| && 0 < money < hd.held.stacks[id].Worth()
    requires (hd', lost) == Break(hd, id, money, place, takes)
    ensures hd'.Worth() + money + lost == hd.Worth() && lost <= Change(hd.held.stacks[id], money) <= CRYSTAL
    ensures lost == 0 <==> BreakArrives(hd, id, money, place, takes)
    ensures |hd.held.stacks| <= |hd'.held.stacks|
    ensures forall i :: 0 <= i < |hd.held.stacks| && i != id ==> Grown(hd.held.stacks[i], hd'.held.stacks[i])
  {
    var s := hd.held.stacks[id];
    var change := Change(s, money);
    ChangeIsPaid(change);
    BatchesAre(change);
    GiveAllAdds(hd, Batches(change), place, 0, takes);
    var hd1 := GiveAll(hd, Batches(change), place, 0, takes).0;
    assert Grown(s, hd1.held.stacks[id]);
    WithoutTakes(hd1.held, id, RemoveCount(s, money));
  }

  /** A stack that is gone leaves its place free. */
  lemma WithoutKeepsPlaces(h: Held, id: nat, n: nat)
    requires id < |h.stacks| && 0 < n <= h.stacks[id].count
    ensures Places(Without(h, id, n)) == Places(h)
  {
    InUseUpdate(h.stacks, id, h.stacks[id].(count := h.stacks[id].count - n));
  }

  lemma BreakKeepsPlaces(hd: Holding, id: nat, money: nat, place: nat -> Place, takes: Takes)
    requires Valid(hd.held) && id < |hd.held.stacks| && 0 < money < hd.held.stacks[id].Worth()
    ensures Places(Break(hd, id, money, place, takes).0.held) == Places(hd.held)
  {
    var s := hd.held.stacks[id];
    var batches := Batches(Change(s, money));
    BatchesAre(Change(s, money));
    BatchesHavePieces(Change(s, money));
    GiveAllAdds(hd, batches, place, 0, takes);
    GiveAllKeepsPlaces(hd, batches, place, 0, takes);
    var h := GiveAll(hd, batches, place, 0, takes).0.held;
    assert Grown(s, h.stacks[id]);
    WithoutKeepsPlaces(h, id, RemoveCount(s, money));
  }

  /** A whole stack is gone. */
  function Gone(hd: Holding, id: nat): Holding
    requires id < |hd.held.stacks|
  {
    hd.(held := Without(hd.held, id, hd.held.stacks[id].count))
  }

  /** What is left to pay when whole stacks have been taken, and the stack to break for it, if anything is. */
  datatype Due = Due(hd: Holding, id: nat, left: nat)

  /** Stack after stack is taken, until one of them is enough. */
  function TakeWhole(hd: Holding, ids: seq<nat>, money: nat): (d: Due)
    requires Valid(hd.held) && money > 0
    ensures Valid(d.hd.held)
    ensures d.left > 0 ==> d.id < |d.hd.held.stacks| && d.left < d.hd.held.stacks[d.id].Worth()
    decreases |ids|
  {
    if ids == [] || ids[0] >= |hd.held.stacks| then Due(hd, 0, 0)
    else
      var worth := hd.held.stacks[ids[0]].Worth();
      if worth > money then Due(hd, ids[0], money)
      else if worth == money then Due(Gone(hd, ids[0]), ids[0], 0)
      else TakeWhole(Gone(hd, ids[0]), ids[1..], money - worth)
  }

  /** Then that stack is broken. */
  function Take(hd: Holding, ids: seq<nat>, money: nat, place: nat -> Place, takes: Takes): (Holding, nat)
    requires Valid(hd.held) && money > 0
  {
    var d := TakeWhole(hd, ids, money);
    if d.left == 0 then (d.hd, 0) else Break(d.hd, d.id, d.left, place, takes)
  }

  /** No change is due, or all of it arrives. */
  predicate ChangeArrives(hd: Holding, ids: seq<nat>, money: nat, place: nat -> Place, takes: Takes)
    requires Valid(hd.held) && money > 0
  {
    var d := TakeWhole(hd, ids, money);
    d.left > 0 ==> BreakArrives(d.hd, d.id, d.left, place, takes)
  }

  lemma FirstGone(hd: Holding, ids: seq<nat>, hd': Holding, worth: nat)
    requires Valid(hd.held) && InOrder(hd.held.stacks, ids) && ids != [] && hd' == Gone(hd, ids[0])
    requires worth == hd.held.stacks[ids[0]].Worth()
    ensures Valid(hd'.held) && InOrder(hd'.held.stacks, ids[1..]) && hd'.ground == hd.ground
    ensures Total(hd'.held.stacks) + worth == Total(hd.held.stacks)
    ensures hd'.held.stacks == hd.held.stacks[ids[0] := hd.held.stacks[ids[0]].(count := 0)]
  {
    WithoutTakes(hd.held, ids[0], hd.held.stacks[ids[0]].count);
    forall id: nat
      ensures Listed(hd'.held.stacks, ids[1..], id)
    {
      assert Listed(hd.held.stacks, ids, id);
      assert id in ids <==> id == ids[0] || id in ids[1..];
    }
  }

  lemma {:induction false} SomeStack(stacks: seq<Stack>, ids: seq<nat>)
    requires InOrder(stacks, ids) && Total(stacks) > 0
    ensures ids != []
  {
    if ids == [] {
      assert forall id: nat :: id < |stacks| && Listed(stacks, ids, id) ==> stacks[id].Worth() == 0;
      NothingThere(stacks);
    }
  }

  /** The stacks before the k-th are gone, and the others as they were. */
  ghost predicate Emptied(before: seq<Stack>, after: seq<Stack>, ids: seq<nat>, k: nat)
    requires k <= |ids|
  {
    && |before| == |after|
    && forall i :: 0 <= i < |before| ==> after[i] == if i in ids[..k] then before[i].(count := 0) else before[i]
  }

  lemma EmptiedNext(before: seq<Stack>, after: seq<Stack>, ids: seq<nat>, k: nat)
    requires ids != [] && k < |ids| && ids[0] < |before|
    requires Emptied(before[ids[0] := before[ids[0]].(count := 0)], after, ids[1..], k)
    ensures Emptied(before, after, ids, k + 1)
  {
    assert ids[..k+1] == [ids[0]] + ids[1..][..k];
  }

  /** Whole stacks pay for all but what is left; where one is to be broken, it is the k-th, and it and those after it
      are all there are. */
  lemma {:induction false} WholeStacksPay(hd: Holding, ids: seq<nat>, money: nat, d: Due) returns (k: nat)
    requires Valid(hd.held) && InOrder(hd.held.stacks, ids) && 0 < money <= Total(hd.held.stacks)
    requires d == TakeWhole(hd, ids, money)
    ensures Total(d.hd.held.stacks) + money == Total(hd.held.stacks) + d.left && d.hd.ground == hd.ground
    ensures k < |ids| && Emptied(hd.held.stacks, d.hd.held.stacks, ids, if d.left > 0 then k else k + 1)
    ensures d.left > 0 ==> d.id == ids[k] && InOrder(d.hd.held.stacks, ids[k..])
    decreases |ids|
  {
    SomeStack(hd.held.stacks, ids);
    var worth := hd.held.stacks[ids[0]].Worth();
    k := 0;
    assert ids[0..] == ids;
    if worth <= money {
      var hd' := Gone(hd, ids[0]);
      FirstGone(hd, ids, hd', worth);
      if worth < money {
        k := WholeStacksPay(hd', ids[1..], money - worth, d);
        EmptiedNext(hd.held.stacks, d.hd.held.stacks, ids, if d.left > 0 then k else k + 1);
        assert ids[1..][k..] == ids[k+1..];
        k := k + 1;
      } else {
        EmptiedNext(hd.held.stacks, hd'.held.stacks, ids, 0);
      }
    }
  }

  /** The first k stacks are gone, and the next was the last to be touched. */
  ghost predicate Settled(before: seq<Stack>, after: seq<Stack>, ids: seq<nat>, k: nat)
    requires k < |ids|
  {
    && |before| <= |after|
    && forall i :: 0 <= i < |before| ==>
        if i in ids[..k] then after[i].count == 0 else i != ids[k] ==> Grown(before[i], after[i])
  }

  lemma EmptiedSettles(before: seq<Stack>, after: seq<Stack>, ids: seq<nat>, k: nat)
    requires k < |ids| && Emptied(before, after, ids, k + 1)
    ensures Settled(before, after, ids, k)
  {
    assert ids[..k+1] == ids[..k] + [ids[k]];
  }

  lemma BrokenSettles(before: seq<Stack>, emptied: seq<Stack>, after: seq<Stack>, ids: seq<nat>, k: nat)
    requires k < |ids| && Emptied(before, emptied, ids, k) && |emptied| <= |after| && Distinct(ids)
    requires forall i :: 0 <= i < |emptied| && i != ids[k] ==> Grown(emptied[i], after[i])
    ensures Settled(before, after, ids, k)
  {
  }

  /** The worth falls by the money, and by what is lost of the change, which is none exactly if all of it arrives.
      The stacks that are gone come first in the order, and at most one more is touched. */
  lemma TakePays(hd: Holding, ids: seq<nat>, money: nat, place: nat -> Place, takes: Takes, hd': Holding, lost: nat)
    returns (k: nat)
    requires Valid(hd.held) && InOrder(hd.held.stacks, ids) && 0 < money <= Total(hd.held.stacks)
    requires (hd', lost) == Take(hd, ids, money, place, takes)
    ensures hd'.Worth() + money + lost == hd.Worth() && lost <= CRYSTAL
    ensures lost == 0 <==> ChangeArrives(hd, ids, money, place, takes)
    ensures k < |ids| && Settled(hd.held.stacks, hd'.held.stacks, ids, k)
  {
    var d := TakeWhole(hd, ids, money);
    k := WholeStacksPay(hd, ids, money, d);
    if d.left > 0 {
      BreakPays(d.hd, d.id, d.left, place, takes, hd', lost);
      BrokenSettles(hd.held.stacks, d.hd.held.stacks, hd'.held.stacks, ids, k);
    } else {
      EmptiedSettles(hd.held.stacks, hd'.held.stacks, ids, k);
    }
  }

  lemma {:induction false} TakeWholeKeepsPlaces(hd: Holding, ids: seq<nat>, money: nat)
    requires Valid(hd.held) && InOrder(hd.held.stacks, ids) && money > 0
    ensures Places(TakeWhole(hd, ids, money).hd.held) == Places(hd.held)
    decreases |ids|
  {
    if ids != [] && ids[0] < |hd.held.stacks| {
      var worth := hd.held.stacks[ids[0]].Worth();
      assert Listed(hd.held.stacks, ids, ids[0]);
      FirstGone(hd, ids, Gone(hd, ids[0]), worth);
      WithoutKeepsPlaces(hd.held, ids[0], hd.held.stacks[ids[0]].count);
      if worth < money {
        TakeWholeKeepsPlaces(Gone(hd, ids[0]), ids[1..], money - worth);
      }
    }
  }

  /** A payment keeps the places: stacks that are gone leave theirs free, and the change takes free ones. */
  lemma TakeKeepsPlaces(hd: Holding, ids: seq<nat>, money: nat, place: nat -> Place, takes: Takes)
    requires Valid(hd.held) && InOrder(hd.held.stacks, ids) && money > 0
    ensures Places(Take(hd, ids, money, place, takes).0.held) == Places(hd.held)
  {
    TakeWholeKeepsPlaces(hd, ids, money);
    var d := TakeWhole(hd, ids, money);
    if d.left > 0 {
      BreakKeepsPlaces(d.hd, d.id, d.left, place, takes);
    }
  }

  lemma SettledInOrder(before: seq<Stack>, after: seq<Stack>, ids: seq<nat>, k: nat)
    requires k < |ids| && InOrder(before, ids) && Settled(before, after, ids, k)
    requires forall i :: 0 <= i < |before| ==> IsCoin(before[i].unit)
    ensures SmallestFirst(before, after)
  {
    forall i, j | 0 <= i < |before| && 0 <= j < |before| && after[i].count < before[i].count
        && before[j].Worth() < before[i].Worth()
      ensures after[j].count == 0
    {
      assert i in ids[..k] || i == ids[k];
      assert Listed(before, ids, j);
    }
  }

  /** Coins are taken from the stacks of least worth; at most one is broken, all worth less are gone. */
  ghost predicate SmallestFirst(before: seq<Stack>, after: seq<Stack>) {
    && |before| <= |after|
    && (forall i, j :: 0 <= i < |before| && 0 <= j < |before| ==>
        after[i].count < before[i].count && before[j].Worth() < before[i].Worth() ==> after[j].count == 0)
    && (forall i, j :: 0 <= i < |before| && 0 <= j < |before| ==>
        0 < after[i].count < before[i].count && 0 < after[j].count < before[j].count ==> i == j)
  }
}
