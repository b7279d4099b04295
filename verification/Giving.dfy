/** Where coins go that are paid out, and which of them end up nowhere. */
module Giving {
  import opened Basics
  import opened Coins
  import opened Payout

  // ---- where coins go

  /** The coins of a cylinder, and how many places in it, at any depth, are free for more. */
  datatype Held = Held(stacks: seq<Stack>, free: nat)

  /** The coins on top of a tile, the last one on top of all, and how many other items are below. */
  datatype Ground = Ground(coins: seq<Stack>, litter: nat)

  /** As many items as a tile takes. */
  const TILE_LIMIT := 0x3E8

  datatype Holding = Holding(held: Held, ground: Ground) {
    function Worth(): nat { Total(held.stacks) + Total(ground.coins) }
  }

  /** Where the cylinder would put coins, as slots, weights and scripts have it: nowhere; at a free place; or onto a
      stack, in a slot of its own or in a bag, and what that leaves in its turn somewhere. */
  datatype Place = Refused | Beside | Onto(id: nat, inSlot: bool, rest: Place)

  /** Which stacks the cylinder counts when it is asked how many pieces it takes. */
  type Takes = nat -> bool

  predicate Valid(h: Held) {
    forall i :: 0 <= i < |h.stacks| ==> IsCoin(h.stacks[i].unit) && h.stacks[i].count < UINT8
  }

  predicate CanStack(s: Stack, unit: nat) { s.unit == unit && 0 < s.count < MAX_STACK }

  /** What the stacks of such coins lack. */
  function RoomOnStacks(stacks: seq<Stack>, unit: nat, takes: Takes): nat {
    if stacks == [] then 0
    else
      var n := |stacks| - 1;
      RoomOnStacks(stacks[..n], unit, takes) +
          if CanStack(stacks[n], unit) && takes(n) then MAX_STACK - stacks[n].count else 0
  }

  /** How many pieces the cylinder takes, when it is asked about all of itself. */
  function Room(h: Held, unit: nat, takes: Takes): nat { h.free * 100 + RoomOnStacks(h.stacks, unit, takes) }

  /** The cylinder does not take the coins in at all; bags do not either when there is not room for all of them. */
  predicate Refuses(h: Held, unit: nat, count: nat, place: Place, takes: Takes) {
    match place
    case Refused => true
    case Beside => h.free == 0
    case Onto(id, inSlot, _) =>
      id >= |h.stacks| || !CanStack(h.stacks[id], unit) || (!inSlot && Room(h, unit, takes) < count)
  }

  function PutOn(h: Held, id: nat, n: nat): Held
    requires id < |h.stacks|
  {
    h.(stacks := h.stacks[id := h.stacks[id].(count := h.stacks[id].count + n)])
  }

  /** Of the pieces there is room for, as many as a stack lacks. */
  function Merged(s: Stack, count: nat, room: nat): nat
    requires s.count <= MAX_STACK
  {
    Min(MAX_STACK - s.count, Min(count, room))
  }

  /** The cylinder with coins it does not refuse, and how many of them end up nowhere: those beyond the room there is,
      and those that are left over when a stack is full and are then refused. */
  function Put(h: Held, unit: nat, count: nat, place: Place, takes: Takes): (Held, nat)
    requires !Refuses(h, unit, count, place, takes)
    decreases place
  {
    match place
    case Beside => (Held(h.stacks + [Stack(unit, count)], h.free - 1), 0)
    case Onto(id, _, rest) =>
      var room := Room(h, unit, takes);
      var n := Merged(h.stacks[id], count, room);
      var left := Min(count, room) - n;
      var h' := PutOn(h, id, n);
      if left == 0 || Refuses(h', unit, left, rest, takes) then (h', count - n)
      else
        var (h'', lost) := Put(h', unit, left, rest, takes);
        (h'', count - n - left + lost)
  }

  /** The coins are taken in and none of them is lost. */
  predicate Kept(h: Held, unit: nat, count: nat, place: Place, takes: Takes)
    decreases place
  {
    && !Refuses(h, unit, count, place, takes)
    && (place.Onto? ==>
          var lacking := MAX_STACK - h.stacks[place.id].count;
          && count <= Room(h, unit, takes)
          && (count > lacking ==> Kept(PutOn(h, place.id, lacking), unit, count - lacking, place.rest, takes)))
  }

  /** Coins put onto a stack: what it lacks goes there, and the rest of those there is room for somewhere else. */
  lemma {:induction false} PutOnto(h: Held, unit: nat, count: nat, place: Place, takes: Takes,
                                   room: nat, n: nat, left: nat, h': Held)
    requires place.Onto? && !Refuses(h, unit, count, place, takes) && room == Room(h, unit, takes)
    requires n == Merged(h.stacks[place.id], count, room) && left == Min(count, room) - n && h' == PutOn(h, place.id, n)
    ensures Put(h, unit, count, place, takes) ==
      if left == 0 || Refuses(h', unit, left, place.rest, takes) then (h', count - n)
      else
        (Put(h', unit, left, place.rest, takes).0, count - n - left + Put(h', unit, left, place.rest, takes).1)
  {
  }

  /** So much of it: what became of the rest tells what became of all. */
  lemma {:induction false} PutOntoEnds(h: Held, unit: nat, count: nat, place: Place, takes: Takes,
                                       room: nat, n: nat, left: nat, h': Held, rest: (Held, nat))
    requires place.Onto? && !Refuses(h, unit, count, place, takes) && room == Room(h, unit, takes)
    requires n == Merged(h.stacks[place.id], count, room) && left == Min(count, room) - n && h' == PutOn(h, place.id, n)
    requires rest == if left == 0 || Refuses(h', unit, left, place.rest, takes) then (h', left)
                     else Put(h', unit, left, place.rest, takes)
    ensures Put(h, unit, count, place, takes) == (rest.0, count - n - left + rest.1)
  {
    PutOnto(h, unit, count, place, takes, room, n, left, h');
  }

  lemma {:induction false} KeptOnto(h: Held, unit: nat, count: nat, place: Place, takes: Takes,
                                    room: nat, n: nat, left: nat, h': Held)
    requires place.Onto? && !Refuses(h, unit, count, place, takes) && room == Room(h, unit, takes)
    requires n == Merged(h.stacks[place.id], count, room) && left == Min(count, room) - n && h' == PutOn(h, place.id, n)
    ensures Kept(h, unit, count, place, takes) <==>
      count <= room && (left > 0 ==> Kept(h', unit, left, place.rest, takes))
  {
  }

  lemma {:induction false} NothingIsLost(h: Held, unit: nat, count: nat, place: Place, takes: Takes)
    requires !Refuses(h, unit, count, place, takes) && count > 0
    ensures Put(h, unit, count, place, takes).1 == 0 <==> Kept(h, unit, count, place, takes)
    ensures Put(h, unit, count, place, takes).1 <= count
    decreases place
  {
    if place.Onto? {
      var room := Room(h, unit, takes);
      var n := Merged(h.stacks[place.id], count, room);
      var left := Min(count, room) - n;
      var h' := PutOn(h, place.id, n);
      PutOnto(h, unit, count, place, takes, room, n, left, h');
      KeptOnto(h, unit, count, place, takes, room, n, left, h');
      if left > 0 && !Refuses(h', unit, left, place.rest, takes) {
        NothingIsLost(h', unit, left, place.rest, takes);
      }
    }
  }

  /** Stacks only grow when coins come in, and those that are gone stay so. */
  ghost predicate MoreCoins(before: seq<Stack>, after: seq<Stack>) {
    && |before| <= |after|
    && forall i :: 0 <= i < |before| ==> Grown(before[i], after[i])
  }

  predicate Grown(before: Stack, after: Stack) {
    && after.unit == before.unit && before.count <= after.count
    && (before.count == 0 ==> after.count == 0)
  }

  lemma PutOnAdds(h: Held, id: nat, n: nat)
    requires id < |h.stacks|
    ensures Total(PutOn(h, id, n).stacks) == Total(h.stacks) + ValueOf(h.stacks[id].unit, n)
  {
    var s := h.stacks[id];
    Heavier(h.stacks, id, s.(count := s.count + n), s.unit, n);
  }

  lemma PutOnGrows(h: Held, id: nat, n: nat)
    requires Valid(h) && id < |h.stacks| && 0 < h.stacks[id].count && h.stacks[id].count + n < UINT8
    ensures Valid(PutOn(h, id, n)) && MoreCoins(h.stacks, PutOn(h, id, n).stacks)
  {
  }

  /** Cylinders only get more coins. */
  lemma {:induction false} PutGrows(h: Held, unit: nat, count: nat, place: Place, takes: Takes, h'': Held, lost: nat)
    requires Valid(h) && IsCoin(unit) && count < UINT8
    requires !Refuses(h, unit, count, place, takes) && (h'', lost) == Put(h, unit, count, place, takes)
    ensures Valid(h'') && MoreCoins(h.stacks, h''.stacks) && lost <= count
    decreases place
  {
    if place.Onto? {
      var room := Room(h, unit, takes);
      var n := Merged(h.stacks[place.id], count, room);
      var left := Min(count, room) - n;
      var h' := PutOn(h, place.id, n);
      PutOnGrows(h, place.id, n);
      if left > 0 && !Refuses(h', unit, left, place.rest, takes) {
        PutGrows(h', unit, left, place.rest, takes, h'', Put(h', unit, left, place.rest, takes).1);
        GrowsOn(h.stacks, h'.stacks, h''.stacks);
      }
    }
  }

  lemma GrowsOn(s: seq<Stack>, t: seq<Stack>, u: seq<Stack>)
    requires MoreCoins(s, t) && MoreCoins(t, u)
    ensures MoreCoins(s, u)
  {
    forall i | 0 <= i < |s|
      ensures Grown(s[i], u[i])
    {
      assert Grown(s[i], t[i]) && Grown(t[i], u[i]);
    }
  }

  /** What is put in and what is lost is what there was. */
  lemma {:induction false} PutAdds(h: Held, unit: nat, count: nat, place: Place, takes: Takes, h'': Held, lost: nat)
    requires !Refuses(h, unit, count, place, takes) && (h'', lost) == Put(h, unit, count, place, takes)
    ensures Total(h''.stacks) + ValueOf(unit, lost) == Total(h.stacks) + ValueOf(unit, count)
    decreases place
  {
    if place.Onto? {
      var n := Merged(h.stacks[place.id], count, Room(h, unit, takes));
      var left := Min(count, Room(h, unit, takes)) - n;
      var h' := PutOn(h, place.id, n);
      PutOnAdds(h, place.id, n);
      var lostOfRest := left;
      if left > 0 && !Refuses(h', unit, left, place.rest, takes) {
        lostOfRest := Put(h', unit, left, place.rest, takes).1;
        PutAdds(h', unit, left, place.rest, takes, h'', lostOfRest);
      }
    } else {
      TotalAppend(h.stacks, Stack(unit, count));
    }
  }

  // ---- places

  /** How many of the stacks have pieces. */
  function InUse(stacks: seq<Stack>): nat {
    if stacks == [] then 0 else InUse(stacks[..|stacks|-1]) + if stacks[|stacks|-1].count > 0 then 1 else 0
  }

  /** The places in a cylinder, those that stacks have and those that are free. */
  function Places(h: Held): nat { InUse(h.stacks) + h.free }

  lemma {:induction false} InUseUpdate(stacks: seq<Stack>, id: nat, s: Stack)
    requires id < |stacks|
    ensures InUse(stacks[id := s]) + (if stacks[id].count > 0 then 1 else 0)
         == InUse(stacks) + if s.count > 0 then 1 else 0
  {
    var n := |stacks| - 1;
    if id == n {
      assert stacks[id := s][..n] == stacks[..n];
    } else {
      assert stacks[id := s][..n] == stacks[..n][id := s];
      InUseUpdate(stacks[..n], id, s);
    }
  }

  lemma {:induction false} InUseAppend(stacks: seq<Stack>, s: Stack)
    ensures InUse(stacks + [s]) == InUse(stacks) + if s.count > 0 then 1 else 0
  {
    assert (stacks + [s])[..|stacks|] == stacks;
  }

  /** Every new stack takes a free place, and has pieces if there were any to put in. */
  lemma {:induction false} PutKeepsPlaces(h: Held, unit: nat, count: nat, place: Place, takes: Takes, h'': Held)
    requires !Refuses(h, unit, count, place, takes) && h'' == Put(h, unit, count, place, takes).0
    ensures |h''.stacks| + h''.free == |h.stacks| + h.free
    ensures count > 0 ==> Places(h'') == Places(h)
    decreases place
  {
    if place.Onto? {
      var n := Merged(h.stacks[place.id], count, Room(h, unit, takes));
      var left := Min(count, Room(h, unit, takes)) - n;
      var h' := PutOn(h, place.id, n);
      InUseUpdate(h.stacks, place.id, h'.stacks[place.id]);
      if left > 0 && !Refuses(h', unit, left, place.rest, takes) {
        PutKeepsPlaces(h', unit, left, place.rest, takes, h'');
      }
    } else {
      InUseAppend(h.stacks, Stack(unit, count));
    }
  }

  // ---- room

  lemma {:induction false} RoomUpdate(stacks: seq<Stack>, id: nat, s: Stack, unit: nat, takes: Takes)
    requires id < |stacks| && takes(id)
    ensures RoomOnStacks(stacks[id := s], unit, takes)
            + (if CanStack(stacks[id], unit) then MAX_STACK - stacks[id].count else 0)
         == RoomOnStacks(stacks, unit, takes) + if CanStack(s, unit) then MAX_STACK - s.count else 0
  {
    var n := |stacks| - 1;
    if id == n {
      assert stacks[id := s][..n] == stacks[..n];
    } else {
      assert stacks[id := s][..n] == stacks[..n][id := s];
      RoomUpdate(stacks[..n], id, s, unit, takes);
    }
  }

  lemma {:induction false} RoomAppend(stacks: seq<Stack>, s: Stack, unit: nat, takes: Takes)
    requires takes(|stacks|)
    ensures RoomOnStacks(stacks + [s], unit, takes)
         == RoomOnStacks(stacks, unit, takes) + if CanStack(s, unit) then MAX_STACK - s.count else 0
  {
    assert (stacks + [s])[..|stacks|] == stacks;
  }

  /** Where every stack is counted, the coins that are kept take exactly as much of the room as they are, so that no
      more are ever kept than there is room for. */
  lemma {:induction false} PutTakesRoom(h: Held, unit: nat, count: nat, place: Place, takes: Takes, h'': Held,
                                        lost: nat)
    requires forall id :: takes(id)
    requires !Refuses(h, unit, count, place, takes) && (h'', lost) == Put(h, unit, count, place, takes)
    requires 0 < count <= MAX_STACK
    ensures Room(h'', unit, takes) + count - lost == Room(h, unit, takes)
    decreases place
  {
    if place.Onto? {
      var room := Room(h, unit, takes);
      var n := Merged(h.stacks[place.id], count, room);
      var left := Min(count, room) - n;
      var h' := PutOn(h, place.id, n);
      PutOnto(h, unit, count, place, takes, room, n, left, h');
      RoomUpdate(h.stacks, place.id, h'.stacks[place.id], unit, takes);
      if left > 0 && !Refuses(h', unit, left, place.rest, takes) {
        PutTakesRoom(h', unit, left, place.rest, takes, h'', Put(h', unit, left, place.rest, takes).1);
      }
    } else {
      RoomAppend(h.stacks, Stack(unit, count), unit, takes);
    }
  }

  /** Onto a stack in a bag they go exactly if there is room for them, and then those that fit on it are not lost. */
  lemma {:induction false} BagsTakeWhatFits(h: Held, unit: nat, count: nat, place: Place, takes: Takes)
    requires place.Onto? && !place.inSlot && place.id < |h.stacks| && CanStack(h.stacks[place.id], unit) && count > 0
    ensures count <= Room(h, unit, takes) ==> !Refuses(h, unit, count, place, takes)
    ensures !Refuses(h, unit, count, place, takes) && h.stacks[place.id].count + count <= MAX_STACK ==>
      Put(h, unit, count, place, takes) == (PutOn(h, place.id, count), 0)
  {
  }

  // ---- giving coins, one kind after the other

  predicate IsFull(g: Ground) { |g.coins| + g.litter >= TILE_LIMIT }

  /** The pieces that join those on top. */
  function Joining(g: Ground, unit: nat, count: nat): nat {
    var top := |g.coins| - 1;
    if top >= 0 && g.coins[top].unit == unit && g.coins[top].count < MAX_STACK
        then Min(MAX_STACK - g.coins[top].count, count)
    else 0
  }

  /** n pieces join those on top. */
  function Join(coins: seq<Stack>, unit: nat, n: nat): seq<Stack> {
    var top := |coins| - 1;
    if n > 0 && top >= 0 then coins[top := Stack(unit, coins[top].count + n)] else coins
  }

  /** On a tile coins join those on top, if they are alike; what is left over lies on top of them. */
  function Drop(g: Ground, unit: nat, count: nat): Ground {
    var n := Joining(g, unit, count);
    var coins := Join(g.coins, unit, n);
    g.(coins := if n == count && n > 0 then coins else coins + [Stack(unit, count - n)])
  }

  lemma DropAdds(g: Ground, unit: nat, count: nat)
    ensures Total(Drop(g, unit, count).coins) == Total(g.coins) + ValueOf(unit, count)
  {
    var n := Joining(g, unit, count);
    JoinAdds(g.coins, unit, n, Join(g.coins, unit, n));
    TopAdds(Join(g.coins, unit, n), unit, n, count - n, count);
  }

  /** No stack on the tile grows above the limit; and a new one is put on coins of the kind only if these are as many
      as can be. */
  lemma DropPacks(g: Ground, unit: nat, count: nat)
    requires 0 < count <= MAX_STACK && forall s :: s in g.coins ==> s.count <= MAX_STACK
    ensures var g' := Drop(g, unit, count);
      && (forall s :: s in g'.coins ==> s.count <= MAX_STACK) && g'.litter == g.litter
      && |g.coins| <= |g'.coins| <= |g.coins| + 1
      && g'.coins[|g'.coins|-1].unit == unit
      && (g.coins != [] ==>
            var top, top' := g.coins[|g.coins|-1], g'.coins[|g.coins|-1];
            if |g'.coins| > |g.coins| then top'.unit == unit ==> top'.count == MAX_STACK
            else top.unit == unit && top'.count == top.count + count)
  {
  }

  lemma {:induction false} JoinAdds(coins: seq<Stack>, unit: nat, n: nat, joined: seq<Stack>)
    requires n > 0 ==> |coins| > 0 && coins[|coins|-1].unit == unit
    requires joined == Join(coins, unit, n)
    ensures Total(joined) == Total(coins) + ValueOf(unit, n)
  {
    if n > 0 {
      var top := |coins| - 1;
      Heavier(coins, top, Stack(unit, coins[top].count + n), unit, n);
    }
  }

  lemma Heavier(coins: seq<Stack>, i: nat, s: Stack, unit: nat, n: nat)
    requires i < |coins| && coins[i].unit == unit && s == Stack(unit, coins[i].count + n)
    ensures Total(coins[i := s]) == Total(coins) + ValueOf(unit, n)
  {
    TotalUpdate(coins, i, s);
    ValueAdds(unit, coins[i].count, n, s.count);
  }

  lemma {:induction false} TopAdds(coins: seq<Stack>, unit: nat, n: nat, left: nat, count: nat)
    requires count == n + left
    ensures Total(coins + [Stack(unit, left)]) == Total(coins) + ValueOf(unit, left)
    ensures ValueOf(unit, count) == ValueOf(unit, n) + ValueOf(unit, left)
  {
    TotalAppend(coins, Stack(unit, left));
  }

  /** So many coins of a kind. */
  datatype Batch = Batch(unit: nat, count: nat)

  /** Coins go into the cylinder, or on the tile if it refuses them; if that is full, nowhere. */
  function Give(hd: Holding, b: Batch, place: Place, takes: Takes): (Holding, nat) {
    if !Refuses(hd.held, b.unit, b.count, place, takes) then
      var (h, lost) := Put(hd.held, b.unit, b.count, place, takes);
      (hd.(held := h), lost)
    else if IsFull(hd.ground) then (hd, b.count)
    else (hd.(ground := Drop(hd.ground, b.unit, b.count)), 0)
  }

  /** All of them are somewhere: kept in the cylinder, or refused there while the tile is not full. */
  predicate Arrives(hd: Holding, b: Batch, place: Place, takes: Takes) {
    || b.count == 0
    || Kept(hd.held, b.unit, b.count, place, takes)
    || (Refuses(hd.held, b.unit, b.count, place, takes) && !IsFull(hd.ground))
  }

  lemma GiveAdds(hd: Holding, b: Batch, place: Place, takes: Takes)
    requires Valid(hd.held) && IsCoin(b.unit) && b.count < UINT8
    ensures var (hd', lost) := Give(hd, b, place, takes);
      && Valid(hd'.held) && MoreCoins(hd.held.stacks, hd'.held.stacks) && lost <= b.count
      && hd'.Worth() + ValueOf(b.unit, lost) == hd.Worth() + ValueOf(b.unit, b.count)
      && (lost == 0 <==> Arrives(hd, b, place, takes))
  {
    if !Refuses(hd.held, b.unit, b.count, place, takes) {
      PutGrows(hd.held, b.unit, b.count, place, takes,
               Put(hd.held, b.unit, b.count, place, takes).0, Put(hd.held, b.unit, b.count, place, takes).1);
      PutAdds(hd.held, b.unit, b.count, place, takes,
              Put(hd.held, b.unit, b.count, place, takes).0, Put(hd.held, b.unit, b.count, place, takes).1);
      if b.count > 0 {
        NothingIsLost(hd.held, b.unit, b.count, place, takes);
      }
    } else {
      DropAdds(hd.ground, b.unit, b.count);
    }
  }

  /** One batch after the other; place(k) is for the k-th of all. Also, the worth of what is lost. */
  function GiveAll(hd: Holding, batches: seq<Batch>, place: nat -> Place, k: nat, takes: Takes): (Holding, nat)
    decreases |batches|
  {
    if batches == [] then (hd, 0)
    else
      var (hd', lost) := Give(hd, batches[0], place(k), takes);
      var (hd'', more) := GiveAll(hd', batches[1..], place, k + 1, takes);
      (hd'', ValueOf(batches[0].unit, lost) + more)
  }

  /** More is lost. */
  function Plus(lost: nat, r: (Holding, nat)): (Holding, nat) { (r.0, lost + r.1) }

  lemma {:induction false} GiveFirst(hd: Holding, b: Batch, batches: seq<Batch>, place: nat -> Place, k: nat,
                                     takes: Takes, hd': Holding, lost: nat)
    requires (hd', lost) == Give(hd, b, place(k), takes)
    ensures GiveAll(hd, [b] + batches, place, k, takes)
        == Plus(ValueOf(b.unit, lost), GiveAll(hd', batches, place, k + 1, takes))
  {
    assert ([b] + batches)[1..] == batches;
  }

  predicate AllArrive(hd: Holding, batches: seq<Batch>, place: nat -> Place, k: nat, takes: Takes)
    decreases |batches|
  {
    batches != [] ==>
      && Arrives(hd, batches[0], place(k), takes)
      && AllArrive(Give(hd, batches[0], place(k), takes).0, batches[1..], place, k + 1, takes)
  }

  predicate BatchesOk(batches: seq<Batch>) {
    forall i :: 0 <= i < |batches| ==> IsCoin(batches[i].unit) && batches[i].count < UINT8
  }

  function WorthOf(batches: seq<Batch>): nat
    decreases |batches|
  {
    if batches == [] then 0 else ValueOf(batches[0].unit, batches[0].count) + WorthOf(batches[1..])
  }

  lemma {:induction false} GiveAllAdds(hd: Holding, batches: seq<Batch>, place: nat -> Place, k: nat, takes: Takes)
    requires Valid(hd.held) && BatchesOk(batches)
    ensures var (hd', lost) := GiveAll(hd, batches, place, k, takes);
      && Valid(hd'.held) && MoreCoins(hd.held.stacks, hd'.held.stacks) && lost <= WorthOf(batches)
      && hd'.Worth() + lost == hd.Worth() + WorthOf(batches)
      && (lost == 0 <==> AllArrive(hd, batches, place, k, takes))
    decreases |batches|
  {
    if batches != [] {
      var b := batches[0];
      var (hd', lost) := Give(hd, b, place(k), takes);
      GiveAdds(hd, b, place(k), takes);
      GiveAllAdds(hd', batches[1..], place, k + 1, takes);
    }
  }

  predicate AllPieces(batches: seq<Batch>) {
    forall i :: 0 <= i < |batches| ==> batches[i].count > 0
  }

  /** The places are as many as before: there are no more new stacks than there were free places. */
  lemma {:induction false} GiveAllKeepsPlaces(hd: Holding, batches: seq<Batch>, place: nat -> Place, k: nat,
                                              takes: Takes)
    ensures var h := GiveAll(hd, batches, place, k, takes).0.held;
      && |h.stacks| + h.free == |hd.held.stacks| + hd.held.free
      && (AllPieces(batches) ==> Places(h) == Places(hd.held))
    decreases |batches|
  {
    if batches != [] {
      var b := batches[0];
      if !Refuses(hd.held, b.unit, b.count, place(k), takes) {
        PutKeepsPlaces(hd.held, b.unit, b.count, place(k), takes, Put(hd.held, b.unit, b.count, place(k), takes).0);
      }
      GiveAllKeepsPlaces(Give(hd, b, place(k), takes).0, batches[1..], place, k + 1, takes);
    }
  }

  /** Crystal coins, a hundred at a time. */
  function CrystalBatches(coins: nat): seq<Batch> {
    if coins == 0 then [] else [Batch(CRYSTAL, Min(100, coins))] + CrystalBatches(coins - Min(100, coins))
  }

  lemma MoreCrystals(coins: nat, batches: seq<Batch>, small: seq<Batch>) returns (rest: seq<Batch>)
    requires coins > 0 && batches == CrystalBatches(coins) + small
    ensures rest == CrystalBatches(coins - Min(100, coins)) + small
    ensures batches == [Batch(CRYSTAL, Min(100, coins))] + rest
  {
    rest := CrystalBatches(coins - Min(100, coins)) + small;
  }

  /** Platinum and gold coins, if any. */
  function SmallBatches(money: nat): seq<Batch> {
    var platinum := money / 100 % UINT16;
    (if platinum == 0 then [] else [Batch(PLATINUM, Pieces(platinum))]) + GoldBatches(money)
  }

  function GoldBatches(money: nat): seq<Batch> {
    var gold := money - money / 100 % UINT16 * 100;
    if gold == 0 then [] else [Batch(GOLD, Pieces(gold % UINT16))]
  }

  /** The coins paid out for an amount. */
  function Batches(money: nat): seq<Batch> { CrystalBatches(Crystals(money)) + SmallBatches(AfterCrystals(money)) }

  lemma {:induction false} CrystalBatchesAre(coins: nat)
    ensures BatchesOk(CrystalBatches(coins)) && WorthOf(CrystalBatches(coins)) == 10000 * coins
  {
    if coins > 0 {
      CrystalBatchesAre(coins - Min(100, coins));
    }
  }

  lemma {:induction false} WorthOfConcat(s: seq<Batch>, t: seq<Batch>)
    ensures WorthOf(s + t) == WorthOf(s) + WorthOf(t)
    decreases |s|
  {
    if s == [] {
      assert s + t == t;
    } else {
      assert (s + t)[1..] == s[1..] + t;
      WorthOfConcat(s[1..], t);
    }
  }

  lemma SmallBatchesAre(money: nat)
    ensures BatchesOk(SmallBatches(money)) && WorthOf(SmallBatches(money)) == Small(money)
  {
    var platinum := money / 100 % UINT16;
    var s, t := if platinum == 0 then [] else [Batch(PLATINUM, Pieces(platinum))], GoldBatches(money);
    assert s != [] ==> s[1..] == [];
    assert t != [] ==> t[1..] == [];
    WorthOfConcat(s, t);
  }

  lemma BatchesAre(money: nat)
    ensures BatchesOk(Batches(money)) && WorthOf(Batches(money)) == Paid(money)
  {
    CrystalBatchesAre(Crystals(money));
    SmallBatchesAre(AfterCrystals(money));
    WorthOfConcat(CrystalBatches(Crystals(money)), SmallBatches(AfterCrystals(money)));
  }

  /** Amounts up to a crystal coin are paid out in coins of which there are some. */
  lemma BatchesHavePieces(money: nat)
    requires money <= CRYSTAL
    ensures AllPieces(Batches(money))
  {
    if money == CRYSTAL {
      assert Crystals(money) == 1 && AfterCrystals(money) == 0;
      assert CrystalBatches(1) == [Batch(CRYSTAL, 1)] + CrystalBatches(0);
      assert SmallBatches(0) == [];
    } else {
      assert Crystals(money) == 0 && AfterCrystals(money) == money;
      SmallHavePieces(money, money / 100, money % 100);
    }
  }

  lemma SmallHavePieces(money: nat, platinum: nat, gold: nat)
    requires platinum < 100 && gold < 100 && money == platinum * 100 + gold
    ensures AllPieces(SmallBatches(money))
  {
    assert money / 100 == platinum && platinum % UINT16 == platinum;
  }
}
