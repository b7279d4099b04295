/** The wheel of decaying items: four buckets, one looked at every 250 milliseconds. */
module Decay {
  import opened Basics

  const INTERVAL := 250
  const BUCKETS := 4

  datatype DecayState = Not | Decaying | Pending

  /** An item; canDecay says that it is not removed, has no unique id and its type decays. */
  class Item {
    var duration: nat
    var decaying: DecayState
    var canDecay: bool
  }

  // ---- when an item fires

  /** The looks at its bucket that an item outlasts, counted in ticks behind the first of them. */
  function Extra(duration: nat): nat {
    if duration < 1875 then 0 else if duration < 2000 then 1 else 4 + Extra(duration - 1000)
  }

  /** The ticks until a bucket is looked at, when last was. */
  function Wait(bucket: nat, last: nat): nat
    requires bucket < 4 && last < 4
  {
    (bucket + 3 - last) % 4 + 1
  }

  /** The ticks from its entry into the wheel until an item fires. */
  function Lifetime(duration: nat): nat {
    if duration < 1000 then 1 else 4 + Extra(duration)
  }

  /** Below a second an item fires at the next tick; otherwise its whole seconds count, and one tick more for most
      of another. */
  lemma LifetimeIs(duration: nat)
    ensures Lifetime(duration) == if duration < 1000 then 1
      else 4 * (duration / 1000) + if duration % 1000 >= 875 then 1 else 0
  {
    if duration >= 1000 {
      ExtraIs(duration);
    }
  }

  lemma {:induction false} ExtraIs(duration: nat)
    requires duration >= 1000
    ensures 4 + Extra(duration) == 4 * (duration / 1000) + if duration % 1000 >= 875 then 1 else 0
  {
    if duration >= 2000 {
      ExtraIs(duration - 1000);
    }
  }

  /** An item that lasts a second or more is never late, and less than 875 milliseconds early. */
  lemma NeverLate(duration: nat)
    requires duration >= 1000
    ensures 0 <= duration - INTERVAL * Lifetime(duration) < 875
  {
    LifetimeIs(duration);
  }

  /** The bucket for what is left of a duration when that is less than a second. */
  function NewBucket(bucket: nat, duration: nat): (b: nat)
    ensures b < BUCKETS
  {
    (bucket + (duration + INTERVAL / 2) / 1000) % BUCKETS
  }

  lemma NewBucketIsNear(bucket: nat, duration: nat)
    requires bucket < BUCKETS && 0 < duration < 1000
    ensures NewBucket(bucket, duration) == bucket <==> duration < 875
    ensures duration >= 875 ==> Wait(NewBucket(bucket, duration), bucket) == 1
  {
  }

  /** The bucket that an item enters. */
  function EntryBucket(last: nat, duration: nat): (b: nat)
    requires last < BUCKETS
    ensures b < BUCKETS
  {
    if duration >= INTERVAL * BUCKETS then last else (last + 1 + duration / 1000) % BUCKETS
  }

  lemma {:induction false} EntryIsInTime(last: nat, duration: nat)
    requires last < BUCKETS
    ensures Wait(EntryBucket(last, duration), last) + Extra(duration) == Lifetime(duration)
  {
  }

  lemma NextBucket(b: nat, last: nat)
    requires b < BUCKETS && last < BUCKETS
    ensures var bucket := (last + 1) % BUCKETS;
      bucket < BUCKETS && Wait(b, last) == 1 + if b == bucket then 0 else Wait(b, bucket)
  {
  }

  // ---- the lists

  /** Each item of the wheel is in one list, at one place of it; the last list is for those not in a bucket yet. */
  ghost predicate Placed(lists: seq<seq<Item>>, place: map<Item, nat>) {
    && (forall b :: 0 <= b < |lists| ==> Distinct(lists[b]))
    && (forall b, i :: 0 <= b < |lists| && 0 <= i < |lists[b]| ==> lists[b][i] in place && place[lists[b][i]] == b)
    && (forall x {:trigger place[x]} {:trigger x in place} :: x in place ==> place[x] < |lists| && x in lists[place[x]])
  }

  function RemoveAt<T>(list: seq<T>, i: nat): seq<T>
    requires i < |list|
  {
    list[..i] + list[i+1..]
  }

  function Elements(list: seq<Item>): set<Item> {
    set x | x in list
  }

  lemma RestOf(list: seq<Item>, i: nat)
    requires Distinct(list) && i < |list|
    ensures RemoveAt(list, i)[i..] == list[i+1..]
    ensures Elements(list[i+1..]) == Elements(list[i..]) - {list[i]}
  {
    assert list[i..] == [list[i]] + list[i+1..];
  }

  lemma ErasePlaced(lists: seq<seq<Item>>, place: map<Item, nat>, b: nat, i: nat)
    requires Placed(lists, place) && b < |lists| && i < |lists[b]|
    ensures Placed(lists[b := RemoveAt(lists[b], i)], place - {lists[b][i]})
  {
    var list, x := lists[b], lists[b][i];
    var list' := RemoveAt(list, i);
    forall y | y in list && y != x ensures y in list' {
      var j :| 0 <= j < |list| && list[j] == y;
      assert list'[if j < i then j else j - 1] == y;
    }
  }

  lemma PushPlaced(lists: seq<seq<Item>>, place: map<Item, nat>, b: nat, x: Item, front: bool)
    requires Placed(lists, place) && b < |lists| && x !in place
    ensures Placed(lists[b := if front then [x] + lists[b] else lists[b] + [x]], place[x := b])
  {
  }

  /** What an item turns into when it fires: one that lasts so long; or it goes away, or decays no more. */
  type Outcome = Item -> Option<nat>

  predicate Renews(becomes: Outcome, x: Item) {
    becomes(x).Some? && becomes(x).value > 0
  }

  /** An item has fired: it decays in its turn exactly if it turned into something that lasts, and then for so long. */
  ghost predicate HasFired(becomes: Outcome, x: Item)
    reads x
  {
    x.canDecay == Renews(becomes, x) && (Renews(becomes, x) ==> x.duration == becomes(x).value)
  }

  ghost predicate AllHaveFired(becomes: Outcome, fired: seq<Item>)
    reads (set x | x in fired)
  {
    forall x {:trigger HasFired(becomes, x)} {:trigger x in fired} :: x in fired ==> HasFired(becomes, x)
  }

  // ---- the wheel

  class Game {
    var decayItems: seq<seq<Item>>
    var toDecayItems: seq<Item>
    var lastBucket: nat

    // the list each item is in, the number of ticks so far, and the tick at which an item in a bucket has to fire
    ghost var place: map<Item, nat>
    ghost var now: nat
    ghost var due: map<Item, nat>

    constructor ()
      ensures Valid() && place == map[]
    {
      decayItems, toDecayItems, lastBucket := [[], [], [], []], [], 0;
      place, now, due := map[], 0, map[];
    }

    ghost predicate PlacesOk()
      reads this
    {
      |decayItems| == BUCKETS && lastBucket < BUCKETS && Placed(decayItems + [toDecayItems], place)
    }

    /** Items in the wheel are decaying. */
    ghost predicate Running()
      reads this`place, place.Keys`decaying, place.Keys`duration
    {
      forall x {:trigger x in place} :: x in place ==> x.decaying == Decaying && x.duration > 0
    }

    /** An item is in the bucket in which it will be looked at in time; last is the bucket looked at last,
        except for the items in it that are left to be looked at. */
    ghost predicate InTime(x: Item, last: nat, left: set<Item>)
      requires x in place && place[x] < BUCKETS && last < BUCKETS
      reads this`place, this`now, this`due, x`duration
    {
      x in due && due[x] == now + (if x in left then 0 else Wait(place[x], last)) + Extra(x.duration)
    }

    ghost predicate AllInTime(last: nat, left: set<Item>)
      requires last < BUCKETS
      reads this`place, this`now, this`due, place.Keys`duration
    {
      forall x {:trigger InTime(x, last, left)} :: x in place && place[x] < BUCKETS ==> InTime(x, last, left)
    }

    ghost predicate Valid()
      reads this, place.Keys
    {
      PlacesOk() && Running() && AllInTime(lastBucket, {})
    }

    method Erase(bucket: nat, i: nat)
      requires PlacesOk() && bucket < BUCKETS && i < |decayItems[bucket]|
      modifies this`decayItems, this`place
      ensures PlacesOk() && place == old(place) - {old(decayItems[bucket][i])}
      ensures decayItems == old(decayItems)[bucket := RemoveAt(old(decayItems)[bucket], i)]
    {
      ErasePlaced(decayItems + [toDecayItems], place, bucket, i);
      place := place - {decayItems[bucket][i]};
      decayItems := decayItems[bucket := RemoveAt(decayItems[bucket], i)];
      assert decayItems + [toDecayItems] == old(decayItems + [toDecayItems])[bucket := decayItems[bucket]];
    }

    method PushBack(bucket: nat, item: Item)
      requires PlacesOk() && bucket < BUCKETS && item !in place
      modifies this`decayItems, this`place
      ensures PlacesOk() && place == old(place)[item := bucket]
      ensures decayItems == old(decayItems)[bucket := old(decayItems)[bucket] + [item]]
    {
      PushPlaced(decayItems + [toDecayItems], place, bucket, item, false);
      place := place[item := bucket];
      decayItems := decayItems[bucket := decayItems[bucket] + [item]];
      assert decayItems + [toDecayItems] == old(decayItems + [toDecayItems])[bucket := decayItems[bucket]];
    }

    method PushToDecay(item: Item)
      requires PlacesOk() && item !in place
      modifies this`toDecayItems, this`place
      ensures PlacesOk() && place == old(place)[item := BUCKETS] && toDecayItems == [item] + old(toDecayItems)
    {
      PushPlaced(decayItems + [toDecayItems], place, BUCKETS, item, true);
      place := place[item := BUCKETS];
      toDecayItems := [item] + toDecayItems;
      assert decayItems + [toDecayItems] == old(decayItems + [toDecayItems])[BUCKETS := toDecayItems];
    }

    /** An item fires: it turns into another that decays in its turn, or goes away. */
    method InternalDecayItem(item: Item, becomes: Outcome, ghost last: nat, ghost left: set<Item>)
      requires PlacesOk() && Running() && last < BUCKETS && AllInTime(last, left) && item !in place
      modifies this`toDecayItems, this`place, item
      ensures PlacesOk() && Running() && AllInTime(last, left)
      ensures place == if Renews(becomes, item) then old(place)[item := BUCKETS] else old(place)
      ensures toDecayItems == if Renews(becomes, item) then [item] + old(toDecayItems) else old(toDecayItems)
      ensures HasFired(becomes, item)
    {
      match becomes(item) {
        case Some(duration) =>
          item.duration, item.decaying, item.canDecay := duration, Not, duration > 0;
          if item.canDecay {
            item.decaying := Decaying;
            PushToDecay(item);
          }
        case None =>
          item.canDecay := false;
      }
      forall x | x in place && place[x] < BUCKETS ensures InTime(x, last, left) {
        assert old(InTime(x, last, left));
      }
    }

    /** Puts an item into the wheel, if it can decay and does not already. */
    method StartDecay(item: Item, becomes: Outcome)
      requires Valid()
      modifies this`toDecayItems, this`place, item
      ensures Valid()
      ensures old(item in place || !item.canDecay || item.decaying == Decaying) ==>
        && place == old(place) && item.duration == old(item.duration) && item.decaying == old(item.decaying)
        && item.canDecay == old(item.canDecay)
      ensures old(item.canDecay && item.decaying != Decaying && item.duration > 0) ==>
        place == old(place)[item := BUCKETS] && item.duration == old(item.duration) && item.canDecay
      ensures old(item.canDecay && item.decaying != Decaying && item.duration == 0) ==>
        place == (if Renews(becomes, item) then old(place)[item := BUCKETS] else old(place)) && HasFired(becomes, item)
    {
      if !item.canDecay || item.decaying == Decaying {
        return;
      }
      assert item !in place;
      if item.duration > 0 {
        item.decaying := Decaying;
        PushToDecay(item);
        forall x | x in place && place[x] < BUCKETS ensures InTime(x, lastBucket, {}) {
          assert old(InTime(x, lastBucket, {}));
        }
      } else {
        InternalDecayItem(item, becomes, lastBucket, {});
      }
    }

    /** Takes an item with less than a second left out of its bucket: it fires, or moves on to the next bucket. */
    method Leave(bucket: nat, i: nat, item: Item) returns (fires: bool)
      requires bucket < BUCKETS && PlacesOk() && item.decaying == Decaying && item.duration < INTERVAL * BUCKETS
      requires i < |decayItems[bucket]| && decayItems[bucket][i] == item
      modifies this`decayItems, this`place
      ensures PlacesOk() && fires == (item.duration < 875)
      ensures fires ==> item !in place
      ensures !fires ==> item in place && place[item] < BUCKETS && Wait(place[item], bucket) == 1
      ensures place - {item} == old(place) - {item}
      ensures decayItems[bucket] == RemoveAt(old(decayItems[bucket]), i)
    {
      var duration := item.duration;
      fires := true;
      Erase(bucket, i);
      if duration > 0 {
        NewBucketIsNear(bucket, duration);
        var newBucket := NewBucket(bucket, duration);
        if newBucket != bucket {
          PushBack(newBucket, item);
          fires := false;
        }
      }
    }

    lemma InBucket(bucket: nat, i: nat, item: Item, left: set<Item>)
      requires bucket < BUCKETS && PlacesOk() && AllInTime(bucket, left)
      requires i < |decayItems[bucket]| && decayItems[bucket][i] == item
      ensures item in place && place[item] == bucket && InTime(item, bucket, left)
    {
      assert (decayItems + [toDecayItems])[bucket][i] == item;
    }

    /** Takes time off an item whose turn it is: it fires, moves on to the next bucket or stays. */
    method Age(bucket: nat, i: nat, item: Item, ghost left: set<Item>) returns (stays: bool, fires: bool)
      requires bucket < BUCKETS && PlacesOk() && Running() && AllInTime(bucket, left)
      requires i < |decayItems[bucket]| && decayItems[bucket][i] == item && item in left
      modifies this`decayItems, this`place, item`duration
      ensures PlacesOk() && Running() && AllInTime(bucket, left - {item})
      ensures item in due && fires == (due[item] == now)
      ensures item in place <==> !fires
      ensures item in place ==> place[item] < BUCKETS
      ensures place - {item} == old(place) - {item}
      ensures decayItems[bucket] == if stays then old(decayItems[bucket]) else RemoveAt(old(decayItems[bucket]), i)
    {
      stays, fires := false, false;
      InBucket(bucket, i, item, left);
      var decreaseTime := if item.duration < INTERVAL * BUCKETS then item.duration else INTERVAL * BUCKETS;
      var duration := item.duration - decreaseTime;
      item.duration := duration;
      ghost var before := place;
      if duration < INTERVAL * BUCKETS {
        fires := Leave(bucket, i, item);
      } else {
        stays := true;
      }
      assert item in place ==> InTime(item, bucket, left - {item});
      forall x | x in place && x != item ensures x in before && place[x] == before[x] {
        assert x in place - {item} && x in before - {item} && (place - {item})[x] == (before - {item})[x];
      }
      forall x | x in place && place[x] < BUCKETS && x != item ensures InTime(x, bucket, left - {item}) {
        assert old(InTime(x, bucket, left));
      }
    }

    /** Takes an item that decays no more out of its bucket. */
    method Drop(bucket: nat, i: nat, item: Item, ghost left: set<Item>)
      requires bucket < BUCKETS && PlacesOk() && Running() && AllInTime(bucket, left)
      requires i < |decayItems[bucket]| && decayItems[bucket][i] == item
      modifies this`decayItems, this`place, item`decaying
      ensures PlacesOk() && Running() && AllInTime(bucket, left - {item})
      ensures place == old(place) - {item} && item.decaying == Not
      ensures decayItems[bucket] == RemoveAt(old(decayItems[bucket]), i)
    {
      item.decaying := Not;
      Erase(bucket, i);
      forall x | x in place && place[x] < BUCKETS ensures InTime(x, bucket, left - {item}) {
        assert old(InTime(x, bucket, left));
      }
    }

    /** Takes time off an item that can decay; if its time is over, it decays. */
    method AgeOrFire(bucket: nat, i: nat, item: Item, becomes: Outcome, ghost left: set<Item>)
      returns (stays: bool, fires: bool)
      requires bucket < BUCKETS && PlacesOk() && Running() && AllInTime(bucket, left) && item.canDecay
      requires i < |decayItems[bucket]| && decayItems[bucket][i] == item && item in left
      modifies this`decayItems, this`toDecayItems, this`place, item
      ensures PlacesOk() && Running() && AllInTime(bucket, left - {item})
      ensures item in due && fires == (due[item] == now)
      ensures item in place <==> fires ==> Renews(becomes, item)
      ensures if fires then HasFired(becomes, item) else item.canDecay
      ensures item in place ==> (place[item] == BUCKETS <==> fires)
      ensures place - {item} == old(place) - {item}
      ensures decayItems[bucket] == if stays then old(decayItems[bucket]) else RemoveAt(old(decayItems[bucket]), i)
    {
      stays, fires := Age(bucket, i, item, left);
      if fires {
        ghost var before := place;
        InternalDecayItem(item, becomes, bucket, left - {item});
        assert place - {item} == before - {item};
      }
    }

    /** Looks at an item of a bucket whose turn it is. */
    method CheckItem(bucket: nat, i: nat, item: Item, becomes: Outcome, ghost left: set<Item>)
      returns (stays: bool, fires: bool)
      requires bucket < BUCKETS && PlacesOk() && Running() && AllInTime(bucket, left)
      requires i < |decayItems[bucket]| && decayItems[bucket][i] == item && item in left
      modifies this`decayItems, this`toDecayItems, this`place, item
      ensures PlacesOk() && Running() && AllInTime(bucket, left - {item})
      ensures item in due && fires == (old(item.canDecay) && due[item] == now)
      ensures item in place <==> (fires && Renews(becomes, item)) || (!fires && old(item.canDecay))
      ensures if fires then HasFired(becomes, item) else item.canDecay == old(item.canDecay)
      ensures item !in place && !fires ==> item.decaying == Not
      ensures item in place ==> (place[item] == BUCKETS <==> fires)
      ensures place - {item} == old(place) - {item}
      ensures decayItems[bucket] == if stays then old(decayItems[bucket]) else RemoveAt(old(decayItems[bucket]), i)
    {
      if !item.canDecay {
        InBucket(bucket, i, item, left);
        stays, fires := false, false;
        Drop(bucket, i, item, left);
      } else {
        stays, fires := AgeOrFire(bucket, i, item, becomes, left);
      }
    }

    /** Puts the first item that waits for it into its bucket. */
    method Settle()
      requires Valid() && toDecayItems != []
      modifies this`decayItems, this`toDecayItems, this`place, this`due
      ensures var item := old(toDecayItems[0]);
        && toDecayItems == old(toDecayItems)[1..]
        && item in old(place) && old(place)[item] == BUCKETS
        && item in place && place[item] < BUCKETS && place == old(place)[item := place[item]]
        && due == old(due)[item := now + Lifetime(item.duration)]
      ensures Valid()
    {
      var item := toDecayItems[0];
      assert (decayItems + [toDecayItems])[BUCKETS][0] == item;
      PopToDecay();
      assert place == old(place) - {item};
      forall x | x in place && place[x] < BUCKETS ensures InTime(x, lastBucket, {}) {
        assert old(InTime(x, lastBucket, {}));
      }
      Enter(item);
    }

    /** Puts an item into the bucket for its duration. */
    method Enter(item: Item)
      requires Valid() && item !in place && item.decaying == Decaying && item.duration > 0
      modifies this`decayItems, this`place, this`due
      ensures Valid() && item in place && place[item] < BUCKETS && place == old(place)[item := place[item]]
      ensures due == old(due)[item := now + Lifetime(item.duration)]
    {
      var dur := item.duration;
      var bucket := EntryBucket(lastBucket, dur);
      EntryIsInTime(lastBucket, dur);
      PushBack(bucket, item);
      due := due[item := now + Lifetime(dur)];
      assert InTime(item, lastBucket, {});
      forall x | x in place && place[x] < BUCKETS && x != item ensures InTime(x, lastBucket, {}) {
        assert old(InTime(x, lastBucket, {}));
      }
    }

    /** When an item fires that has fired due, or else waits to be put into a bucket at tick t. */
    ghost function Target(x: Item, place: map<Item, nat>, due: map<Item, nat>, t: nat): nat
      reads x`duration
    {
      if x in place && place[x] < BUCKETS && x in due then due[x] else t + Lifetime(x.duration)
    }

    /** Puts the items that wait for it into their buckets. */
    method Cleanup()
      requires Valid()
      modifies this`decayItems, this`toDecayItems, this`place, this`due
      ensures Valid() && toDecayItems == []
      ensures place.Keys == old(place).Keys
      ensures forall x {:trigger x in place} :: x in place ==>
        place[x] < BUCKETS && x in due && due[x] == Target(x, old(place), old(due), now)
    {
      forall x | x in place ensures if place[x] < BUCKETS then x in due else place[x] == BUCKETS {
        assert place[x] < BUCKETS ==> InTime(x, lastBucket, {});
      }
      while toDecayItems != []
        invariant Valid() && place.Keys == old(place).Keys
        invariant forall x {:trigger x in place} :: x in place ==>
          if place[x] < BUCKETS then x in due && due[x] == Target(x, old(place), old(due), now)
              else old(place)[x] == BUCKETS
        decreases |toDecayItems|
      {
        Settle();
      }
      forall x | x in place ensures place[x] < BUCKETS {
        assert (decayItems + [toDecayItems])[place[x]] != [];
      }
    }

    method PopToDecay()
      requires PlacesOk() && toDecayItems != []
      modifies this`toDecayItems, this`place
      ensures PlacesOk() && place == old(place) - {old(toDecayItems[0])} && toDecayItems == old(toDecayItems)[1..]
    {
      ErasePlaced(decayItems + [toDecayItems], place, BUCKETS, 0);
      place := place - {toDecayItems[0]};
      assert RemoveAt(toDecayItems, 0) == toDecayItems[1..];
      toDecayItems := toDecayItems[1..];
      assert decayItems + [toDecayItems] == old(decayItems + [toDecayItems])[BUCKETS := toDecayItems];
    }

    /** Looks at an item of a bucket, and tells how it and the others fared. */
    method CheckAndTell(bucket: nat, i: nat, item: Item, becomes: Outcome, ghost start: map<Item, nat>,
                        ghost items: seq<Item>, ghost left: set<Item>, ghost fired: seq<Item>,
                        ghost can: map<Item, bool>)
      returns (stays: bool, fires: bool)
      requires bucket < BUCKETS && PlacesOk() && Running() && AllInTime(bucket, left)
      requires i < |decayItems[bucket]| && decayItems[bucket][i] == item && item in left && item in items && item in can
      requires AllFared(start, place, items, left, fired, can, becomes, due, now) && CanStill(can, fired)
      modifies this`decayItems, this`toDecayItems, this`place, item
      ensures PlacesOk() && Running() && AllInTime(bucket, left - {item})
      ensures AllFared(start, place, items, left - {item}, if fires then fired + [item] else fired, can, becomes, due,
                       now)
      ensures if fires then HasFired(becomes, item) else item.canDecay == old(item.canDecay)
      ensures item !in place && !fires ==> item.decaying == Not
      ensures place - {item} == old(place) - {item}
      ensures decayItems[bucket] == if stays then old(decayItems[bucket]) else RemoveAt(old(decayItems[bucket]), i)
    {
      ghost var p0 := place;
      assert item in (decayItems + [toDecayItems])[bucket];
      stays, fires := CheckItem(bucket, i, item, becomes, left);
      FaredNext(start, p0, place, items, left, item, fired, fires, can, becomes, due, now);
    }

    /** Looks at one more item of a bucket. */
    method CheckNext(bucket: nat, i: nat, item: Item, becomes: Outcome, ghost start: map<Item, nat>,
                     ghost items: seq<Item>, ghost left: set<Item>, ghost fired: seq<Item>, ghost can: map<Item, bool>)
      returns (stays: bool, ghost fired': seq<Item>)
      requires bucket < BUCKETS && PlacesOk() && Running() && AllInTime(bucket, left)
      requires i < |decayItems[bucket]| && decayItems[bucket][i] == item && item in left && item in items && item in can
      requires AllFared(start, place, items, left, fired, can, becomes, due, now) && CanStill(can, fired)
      requires AllHaveFired(becomes, fired) && AllGivenUp(start, place, fired)
      modifies this`decayItems, this`toDecayItems, this`place, item
      ensures PlacesOk() && Running() && AllInTime(bucket, left - {item})
      ensures AllFared(start, place, items, left - {item}, fired', can, becomes, due, now) && CanStill(can, fired')
      ensures AllHaveFired(becomes, fired') && AllGivenUp(start, place, fired')
      ensures decayItems[bucket] == if stays then old(decayItems[bucket]) else RemoveAt(old(decayItems[bucket]), i)
    {
      ghost var p0 := place;
      var fires;
      stays, fires := CheckAndTell(bucket, i, item, becomes, start, items, left, fired, can);
      fired' := if fires then fired + [item] else fired;
      forall x | x in can && x !in fired' ensures x.canDecay == can[x] {
        assert x !in fired;
      }
      forall x | x in fired' ensures HasFired(becomes, x) {
        assert x != item ==> old(HasFired(becomes, x));
      }
      forall x | x in start && x !in place && x !in fired' ensures x.decaying == Not {
        if x != item {
          Elsewhere(p0, place, item, x);
        }
      }
    }

    /** Looks at the items of a bucket. */
    method CheckBucket(bucket: nat, becomes: Outcome, ghost can: map<Item, bool>) returns (ghost fired: seq<Item>)
      requires bucket < BUCKETS && PlacesOk() && Running() && AllInTime(bucket, Elements(decayItems[bucket]))
      requires can.Keys == place.Keys && CanStill(can, [])
      modifies this`decayItems, this`toDecayItems, this`place, place.Keys
      ensures PlacesOk() && Running() && AllInTime(bucket, {})
      ensures AllFared(old(place), place, old(decayItems[bucket]), {}, fired, can, becomes, due, now)
      ensures CanStill(can, fired) && AllHaveFired(becomes, fired) && AllGivenUp(old(place), place, fired)
    {
      ghost var items, start := decayItems[bucket], place;
      ghost var left := Elements(items);
      assert forall i :: 0 <= i < |items| ==> items[i] == (decayItems + [toDecayItems])[bucket][i];
      fired := [];
      var i := 0;
      assert items[0..] == items;
      while i < |decayItems[bucket]|
        invariant PlacesOk() && Running() && AllInTime(bucket, left)
        invariant i <= |decayItems[bucket]| && left == Elements(decayItems[bucket][i..])
        invariant left <= Elements(items)
        invariant CanStill(can, fired) && AllHaveFired(becomes, fired) && AllGivenUp(start, place, fired)
        invariant AllFared(start, place, items, left, fired, can, becomes, due, now)
        decreases |decayItems[bucket]| - i
      {
        var item := decayItems[bucket][i];
        ghost var list := decayItems[bucket];
        assert item in list[i..];
        assert Distinct((decayItems + [toDecayItems])[bucket]);
        RestOf(list, i);
        var stays;
        stays, fired := CheckNext(bucket, i, item, becomes, start, items, left, fired, can);
        left := left - {item};
        assert decayItems[bucket][if stays then i + 1 else i..] == list[i+1..];
        if stays {
          i := i + 1;
        }
      }
      assert left == {};
    }

    ghost function Can(): map<Item, bool>
      reads this`place, place.Keys`canDecay
    {
      map x | x in place :: x.canDecay
    }

    /** At the next tick the items of the next bucket are to be looked at, the others later. */
    lemma NextInTime(bucket: nat)
      requires Valid() && bucket == (lastBucket + 1) % BUCKETS
      ensures forall x {:trigger x in place} :: x in place && place[x] < BUCKETS ==>
        x in due && due[x] == now + 1 + (if x in decayItems[bucket] then 0 else Wait(place[x], bucket))
            + Extra(x.duration)
      ensures forall x :: x in decayItems[bucket] ==> x in place && place[x] < BUCKETS
    {
      forall x | x in place && place[x] < BUCKETS
        ensures x in due
        ensures due[x] == now + 1 + (if x in decayItems[bucket] then 0 else Wait(place[x], bucket)) + Extra(x.duration)
      {
        assert InTime(x, lastBucket, {});
        NextBucket(place[x], lastBucket);
        InItsList(decayItems + [toDecayItems], place, bucket, x);
      }
      forall x | x in decayItems[bucket] ensures x in place && place[x] < BUCKETS {
        BelongsThere(decayItems + [toDecayItems], place, bucket, x);
      }
    }

    /** A tick, but for the items that wait to be put into a bucket. */
    method CheckNextBucket(becomes: Outcome) returns (ghost fired: seq<Item>)
      requires Valid()
      modifies this`decayItems, this`toDecayItems, this`place, this`lastBucket, this`now, place.Keys
      ensures Valid() && now == old(now) + 1
      ensures Ticked(old(place), place, due, now, old(Can()), becomes, fired)
      ensures CanStill(old(Can()), fired) && AllHaveFired(becomes, fired) && AllGivenUp(old(place), place, fired)
      ensures forall x {:trigger x in place} :: x in place ==>
        (place[x] < BUCKETS <==> old(place)[x] < BUCKETS && x !in fired)
    {
      var bucket := (lastBucket + 1) % BUCKETS;
      NextInTime(bucket);
      now := now + 1;
      assert AllInTime(bucket, Elements(decayItems[bucket]));
      fired := FinishBucket(bucket, becomes, Can());
    }

    /** Looks at the items of the bucket whose turn it is. */
    method FinishBucket(bucket: nat, becomes: Outcome, ghost can: map<Item, bool>) returns (ghost fired: seq<Item>)
      requires bucket < BUCKETS && PlacesOk() && Running() && AllInTime(bucket, Elements(decayItems[bucket]))
      requires forall x {:trigger x in place} :: x in place && place[x] < BUCKETS && x !in decayItems[bucket] ==>
        x in due && due[x] > now
      requires forall x :: x in decayItems[bucket] ==> x in place && place[x] < BUCKETS
      requires can == Can()
      modifies this`decayItems, this`toDecayItems, this`place, this`lastBucket, place.Keys
      ensures Valid()
      ensures Ticked(old(place), place, due, now, can, becomes, fired)
      ensures CanStill(can, fired) && AllHaveFired(becomes, fired) && AllGivenUp(old(place), place, fired)
      ensures forall x {:trigger x in place} :: x in place ==>
        (place[x] < BUCKETS <==> old(place)[x] < BUCKETS && x !in fired)
    {
      ghost var start, items := place, decayItems[bucket];
      fired := CheckBucket(bucket, becomes, can);
      lastBucket := bucket;
      FaredTicked(start, place, items, fired, can, becomes, due, now);
    }

    /** A tick: looks at the next bucket, then puts the items that wait for it into theirs. */
    method CheckDecay(becomes: Outcome) returns (ghost fired: seq<Item>)
      requires Valid()
      modifies this, place.Keys
      ensures Valid() && now == old(now) + 1
      ensures Ticked(old(place), place, old(due), now, old(Can()), becomes, fired)
      ensures CanStill(old(Can()), fired) && AllHaveFired(becomes, fired) && AllGivenUp(old(place), place, fired)
      ensures forall x {:trigger x in place} :: x in place ==>
        place[x] < BUCKETS && x in due && due[x] == Target(x, old(place) - Elements(fired), old(due), now)
      // what has fired and decays again is due after its new lifetime
      ensures forall x {:trigger x in fired} :: x in fired && Renews(becomes, x) ==>
        x in place && place[x] < BUCKETS && x in due && due[x] == now + Lifetime(becomes(x).value)
    {
      fired := CheckNextBucket(becomes);
      ghost var place1, due1 := place, due;
      Cleanup();
      forall x | x in place ensures due[x] == Target(x, old(place) - Elements(fired), due1, now) {
        assert due[x] == Target(x, place1, due1, now) && x in place1;
        assert x in old(place) - Elements(fired) <==> x in old(place) && x !in fired;
      }
    }

    /** What is known of an item between ticks: it is due at a tick to come, or, without one, out of the wheel. */
    ghost predicate Awaits(x: Item, next: Option<nat>)
      reads this, x
    {
      match next
      case Some(at) => now < at && x in place && place[x] < BUCKETS && x in due && due[x] == at && x.canDecay
      case None => x !in place
    }

    /** A tick of a run, as it is for one item. */
    method RunTick(becomes: Outcome, ghost x: Item, ghost next: Option<nat>)
      returns (ghost fired: seq<Item>, ghost next': Option<nat>)
      requires Valid() && Awaits(x, next)
      modifies this, place.Keys
      ensures Valid() && now == old(now) + 1 && place.Keys <= old(place).Keys && Awaits(x, next')
      ensures x in fired <==> next == Some(now)
      ensures next' == if x !in fired then next
                       else if Renews(becomes, x) then Some(now + Lifetime(becomes(x).value)) else None
    {
      ghost var can, before := Can(), place;
      fired := CheckDecay(becomes);
      next' := next;
      if x in fired {
        next' := if Renews(becomes, x) then Some(now + Lifetime(becomes(x).value)) else None;
      } else if x in before {
        assert x in before - Elements(fired) && (before - Elements(fired))[x] == before[x];
        assert x in can && x.canDecay == can[x];
      }
      if x in place {
        assert InTime(x, lastBucket, {});
      }
    }

    /** One more tick of a run, and its log. */
    method LogTick(becomes: Outcome, ghost x: Item, ghost log: seq<seq<Item>>, ghost turns: nat -> Outcome,
                   ghost first: nat, ghost last: int, ghost next: Option<nat>)
      returns (ghost log': seq<seq<Item>>, ghost last': int, ghost next': Option<nat>)
      requires Valid() && Awaits(x, next) && |log| <= now && becomes == turns(|log|)
      requires Logged(log, x, turns, now - |log|, first, last, next)
      modifies this, place.Keys
      ensures Valid() && now == old(now) + 1 && place.Keys <= old(place).Keys && Awaits(x, next')
      ensures |log'| == |log| + 1 && Logged(log', x, turns, now - |log'|, first, last', next')
    {
      ghost var fired;
      fired, next' := RunTick(becomes, x, next);
      log', last' := log + [fired], if x in fired then |log| else last;
      LogGrows(log, x, turns, fired, now - |log'|, first, last, next, next');
    }

    method Run(n: nat, becomes: nat -> Outcome, ghost x: Item, ghost first: nat) returns (ghost log: seq<seq<Item>>)
      requires Valid() && Awaits(x, Some(now + first + 1))
      modifies this, place.Keys
      ensures Valid() && |log| == n && FiresFirst(log, x, first) && FiresInTurn(log, x, becomes)
    {
      ghost var next: Option<nat>, last := Some(now + first + 1), -1;
      log := [];
      for i := 0 to n
        invariant Valid() && place.Keys <= old(place).Keys && |log| == i <= now
        invariant Awaits(x, next) && Logged(log, x, becomes, now - |log|, first, last, next)
      {
        log, last, next := LogTick(becomes(i), x, log, becomes, first, last, next);
      }
    }

    /** Any number of ticks; log has the items that fire at each, becomes what they turn into. An item that can decay
        fires when it is due, and then, as long as it turns into something that decays, whenever that has lasted its
        time, and at no other tick. */
    method RunTicks(n: nat, becomes: nat -> Outcome, ghost x: Item) returns (ghost log: seq<seq<Item>>)
      requires Valid() && x in place && place[x] < BUCKETS && x in due && x.canDecay
      modifies this, place.Keys
      ensures Valid() && |log| == n
      ensures FiresFirst(log, x, old(due)[x] - old(now) - 1) && FiresInTurn(log, x, becomes)
    {
      assert InTime(x, lastBucket, {});
      log := Run(n, becomes, x, due[x] - now - 1);
    }

    /** An item that starts to decay, or what it turns into at once if it has no time left, fires for the first time
        when its lifetime is over. */
    method Outlast(item: Item, n: nat, turns: Outcome, becomes: nat -> Outcome) returns (ghost log: seq<seq<Item>>)
      requires Valid() && item !in place
      requires item.canDecay && item.decaying != Decaying && (item.duration > 0 || Renews(turns, item))
      modifies this, item, place.Keys
      ensures Valid() && |log| == n
      ensures FiresInTurn(log, item, becomes)
      ensures FiresFirst(log, item,
                         Lifetime(if old(item.duration) > 0 then old(item.duration) else turns(item).value) - 1)
    {
      StartDecay(item, turns);
      Cleanup();
      log := RunTicks(n, becomes, item);
    }
  }

  // ---- the log of a run

  /** An item does not fire before a tick, and then it does. */
  ghost predicate FiresFirst(log: seq<seq<Item>>, x: Item, first: int) {
    forall k :: 0 <= k < |log| && k <= first ==> (x in log[k] <==> k == first)
  }

  /** An item that fires at tick k fires next after the lifetime of what it turns into, or never. */
  ghost predicate FiresNext(log: seq<seq<Item>>, x: Item, turns: Outcome, k: nat, i: nat)
    requires k < i < |log|
  {
    x in log[k] ==>
      if Renews(turns, x)
      then i <= k + Lifetime(turns(x).value) ==> (x in log[i] <==> i == k + Lifetime(turns(x).value))
      else x !in log[i]
  }

  ghost predicate FiresInTurn(log: seq<seq<Item>>, x: Item, becomes: nat -> Outcome) {
    forall k: nat, i: nat {:trigger FiresNext(log, x, becomes(k), k, i)} :: k < i < |log| ==>
      FiresNext(log, x, becomes(k), k, i)
  }

  /** The last tick of the log at which an item fires, or -1. */
  ghost predicate Latest(log: seq<seq<Item>>, x: Item, last: int) {
    && -1 <= last < |log| && (last >= 0 ==> x in log[last])
    && forall k :: last < k < |log| ==> x !in log[k]
  }

  /** When an item fires next that fired last so many ticks from the start. */
  ghost function NextTick(start: nat, first: int, last: int, x: Item, becomes: nat -> Outcome): Option<nat>
    requires first >= 0 && last >= -1
  {
    if last == -1 then Some(start + first + 1)
    else if Renews(becomes(last), x) then Some(start + last + 1 + Lifetime(becomes(last)(x).value))
    else None
  }

  /** So far an item has fired first, and in turn, when it should; and next is when it fires next. */
  ghost predicate Logged(log: seq<seq<Item>>, x: Item, becomes: nat -> Outcome, start: nat, first: nat, last: int,
                         next: Option<nat>)
  {
    && FiresFirst(log, x, first) && FiresInTurn(log, x, becomes) && Latest(log, x, last)
    && next == NextTick(start, first, last, x, becomes)
  }

  /** A tick that goes as expected keeps the log as it should be. */
  lemma LogGrows(log: seq<seq<Item>>, x: Item, becomes: nat -> Outcome, fired: seq<Item>, start: nat, first: nat,
                 last: int, next: Option<nat>, next': Option<nat>)
    requires Logged(log, x, becomes, start, first, last, next)
    requires x in fired <==> next == Some(start + |log| + 1)
    requires next' == if x !in fired then next
                      else if Renews(becomes(|log|), x)
                      then Some(start + |log| + 1 + Lifetime(becomes(|log|)(x).value)) else None
    ensures Logged(log + [fired], x, becomes, start, first, if x in fired then |log| else last, next')
  {
    forall k: nat, i: nat | k < i <= |log|
      ensures FiresNext(log + [fired], x, becomes(k), k, i)
    {
      assert i < |log| ==> FiresNext(log, x, becomes(k), k, i);
      assert k < last ==> FiresNext(log, x, becomes(k), k, last);
    }
  }

  /** The items that can still decay after some have fired. */
  ghost predicate CanStill(can: map<Item, bool>, fired: seq<Item>)
    reads can.Keys`canDecay
  {
    forall x {:trigger x in can} :: x in can && x !in fired ==> x.canDecay == can[x]
  }

  /** An item that left the wheel and has not fired can start to decay again. */
  ghost predicate AllGivenUp(before: map<Item, nat>, after: map<Item, nat>, fired: seq<Item>)
    reads before.Keys`decaying
  {
    forall x {:trigger x in before} :: x in before && x !in after && x !in fired ==> x.decaying == Not
  }

  /** A tick: those items of the buckets fired, once each, that could decay and were due; those that fired are in the
      wheel if they turned into something that decays, of the others all that can decay. */
  ghost predicate Ticked(before: map<Item, nat>, after: map<Item, nat>, due: map<Item, nat>, now: nat,
                         can: map<Item, bool>, becomes: Outcome, fired: seq<Item>)
  {
    && Distinct(fired) && after.Keys <= before.Keys
    && (forall x {:trigger x in fired} :: x in fired ==> x in before)
    && (forall x {:trigger x in fired} :: x in before ==>
        (x in fired <==> before[x] < BUCKETS && x in can && can[x] && x in due && due[x] == now))
    && (forall x {:trigger x in after} :: x in fired ==> (x in after <==> Renews(becomes, x)))
    && (forall x {:trigger x in after} :: x in before && x !in fired && x in can && can[x] ==> x in after)
  }

  lemma FaredTicked(start: map<Item, nat>, after: map<Item, nat>, items: seq<Item>, fired: seq<Item>,
                    can: map<Item, bool>, becomes: Outcome, due: map<Item, nat>, now: nat)
    requires AllFared(start, after, items, {}, fired, can, becomes, due, now)
    requires forall x {:trigger x in start} :: x in start && start[x] < BUCKETS && x !in items ==>
        x in due && due[x] > now
    requires forall x :: x in items ==> x in start && start[x] < BUCKETS
    requires forall x {:trigger after[x]} :: x in after ==> after[x] <= BUCKETS
    ensures Ticked(start, after, due, now, can, becomes, fired)
    ensures forall x {:trigger x in after} :: x in after ==>
      (after[x] < BUCKETS <==> x in start && start[x] < BUCKETS && x !in fired)
  {
    forall x | x in after ensures after[x] < BUCKETS <==> x in start && start[x] < BUCKETS && x !in fired {
      assert x in start;
    }
  }

  lemma BelongsThere(lists: seq<seq<Item>>, place: map<Item, nat>, b: nat, x: Item)
    requires Placed(lists, place) && b < |lists| && x in lists[b]
    ensures x in place && place[x] == b
  {
  }

  lemma InItsList(lists: seq<seq<Item>>, place: map<Item, nat>, b: nat, x: Item)
    requires Placed(lists, place) && x in place && b < |lists|
    ensures x in lists[b] <==> place[x] == b
  {
  }

  /** An item that is where it was, or nowhere if it was nowhere. */
  ghost predicate Fared(x: Item, before: map<Item, nat>, after: map<Item, nat>) {
    (x in after <==> x in before) && (x in after ==> after[x] == before[x])
  }

  /** An item that has been looked at: if it could decay and its time had come it fired. */
  ghost predicate Checked(x: Item, could: bool, renews: bool, fired: bool, place: map<Item, nat>, due: bool) {
    && (fired <==> could && due)
    && (x in place <==> if fired then renews else could)
    && (x in place ==> (place[x] == BUCKETS <==> fired))
  }

  /** Of the items of a bucket those in left have not been looked at. */
  ghost predicate AllFared(start: map<Item, nat>, place: map<Item, nat>, items: seq<Item>, left: set<Item>,
                           fired: seq<Item>, can: map<Item, bool>, becomes: Outcome, due: map<Item, nat>, now: nat)
  {
    && place.Keys <= start.Keys && Distinct(fired)
    && (forall x :: x in fired ==> x in items && x !in left)
    && (forall x {:trigger x in start} :: x in start && (x !in items || x in left) ==> Fared(x, start, place))
    && (forall x {:trigger x in items} :: x in items && x !in left ==>
        x in start && x in can && x in due && Checked(x, can[x], Renews(becomes, x), x in fired, place, due[x] == now))
  }

  lemma FaredNext(start: map<Item, nat>, p0: map<Item, nat>, p1: map<Item, nat>, items: seq<Item>, left: set<Item>,
                  item: Item,
                  fired: seq<Item>, fires: bool, can: map<Item, bool>, becomes: Outcome, due: map<Item, nat>, now: nat)
    requires AllFared(start, p0, items, left, fired, can, becomes, due, now)
    requires item in left && item in items && item in start && item in can && item in due && item !in fired
    requires p1 - {item} == p0 - {item}
    requires Checked(item, can[item], Renews(becomes, item), fires, p1, due[item] == now)
    ensures AllFared(start, p1, items, left - {item}, if fires then fired + [item] else fired, can, becomes, due, now)
  {
    AppendNew(fired, item);
    forall x | x in start && (x !in items || x in left - {item}) ensures Fared(x, start, p1) {
      Elsewhere(p0, p1, item, x);
    }
    forall x | x in items && x !in left - {item}
      ensures x in start && x in can && x in due
      ensures Checked(x, can[x], Renews(becomes, x), x in if fires then fired + [item] else fired, p1, due[x] == now)
    {
      if x != item {
        Elsewhere(p0, p1, item, x);
      }
    }
    forall x | x in p1 ensures x in start {
      if x != item {
        Elsewhere(p0, p1, item, x);
      }
    }
  }

  lemma Elsewhere(p0: map<Item, nat>, p1: map<Item, nat>, item: Item, x: Item)
    requires p1 - {item} == p0 - {item} && x != item
    ensures Fared(x, p0, p1)
  {
    assert (x in p1 - {item}) == (x in p0 - {item});
    assert x in p1 ==> (p1 - {item})[x] == p1[x];
    assert x in p0 ==> (p0 - {item})[x] == p0[x];
  }

  lemma AppendNew(list: seq<Item>, x: Item)
    requires Distinct(list) && x !in list
    ensures Distinct(list + [x])
  {
  }
}
