/** Coins, and how they are found in nested containers, in the order of their worth. */
module Coins {
  import opened Basics

  const GOLD := 1
  const PLATINUM := 100
  const CRYSTAL := 10000
  const MAX_STACK := 100

  predicate IsCoin(unit: nat) {
    unit == GOLD || unit == PLATINUM || unit == CRYSTAL
  }

  /** What pieces of a kind are worth: nothing, unless they are coins. */
  function ValueOf(unit: nat, n: nat): nat {
    if unit == GOLD then n
    else if unit == PLATINUM then n * 100
    else if unit == CRYSTAL then n * 10000
    else 0
  }

  lemma ValueAdds(unit: nat, m: nat, n: nat, sum: nat)
    requires sum == m + n
    ensures ValueOf(unit, sum) == ValueOf(unit, m) + ValueOf(unit, n)
  {
  }

  /** A stack of coins, each worth unit; a stack without coins is gone. */
  datatype Stack = Stack(unit: nat, count: nat) {
    function Worth(): nat { ValueOf(unit, count) }
  }

  /** What a container can hold: stacks of coins, known by their number, other containers with their size,
      and the rest. */
  datatype Thing = Money(id: nat) | Bag(size: nat, things: seq<Thing>) | Other

  function Total(s: seq<Stack>): nat {
    if s == [] then 0 else Total(s[..|s|-1]) + s[|s|-1].Worth()
  }

  lemma {:induction false} TotalUpdate(s: seq<Stack>, i: nat, v: Stack)
    requires i < |s|
    ensures Total(s[i := v]) + s[i].Worth() == Total(s) + v.Worth()
  {
    var n := |s| - 1;
    if i == n {
      assert s[i := v][..n] == s[..n];
    } else {
      assert s[i := v][..n] == s[..n][i := v];
      TotalUpdate(s[..n], i, v);
    }
  }

  lemma {:induction false} TotalAppend(s: seq<Stack>, v: Stack)
    ensures Total(s + [v]) == Total(s) + v.Worth()
  {
    assert (s + [v])[..|s|] == s;
  }

  // ---- gathering

  /** The stacks in a list of things, at any depth. */
  function Ids(things: seq<Thing>): multiset<nat> {
    if things == [] then multiset{} else IdsOf(things[0]) + Ids(things[1..])
  }

  function IdsOf(t: Thing): multiset<nat> {
    match t
    case Money(id) => multiset{id}
    case Bag(_, things) => Ids(things)
    case Other => multiset{}
  }

  /** The free places in a list of things, at any depth. */
  function FreePlaces(things: seq<Thing>): nat {
    if things == [] then 0 else FreeIn(things[0]) + FreePlaces(things[1..])
  }

  function FreeIn(t: Thing): nat {
    match t
    case Bag(size, things) => (if |things| < size then size - |things| else 0) + FreePlaces(things)
    case _ => 0
  }

  // what the free places are: those of all bags but for what is in them, where no bag holds more than it can

  function Capacity(things: seq<Thing>): nat {
    if things == [] then 0 else CapacityOf(things[0]) + Capacity(things[1..])
  }

  function CapacityOf(t: Thing): nat {
    match t
    case Bag(size, things) => size + Capacity(things)
    case _ => 0
  }

  function Inside(things: seq<Thing>): nat {
    if things == [] then 0 else InsideOf(things[0]) + Inside(things[1..])
  }

  function InsideOf(t: Thing): nat {
    match t
    case Bag(_, things) => |things| + Inside(things)
    case _ => 0
  }

  predicate Fits(things: seq<Thing>) {
    forall t :: t in things ==> t.Bag? ==> |t.things| <= t.size && Fits(t.things)
  }

  lemma {:induction false} FreePlacesAre(things: seq<Thing>)
    requires Fits(things)
    ensures FreePlaces(things) + Inside(things) == Capacity(things)
  {
    if things != [] {
      var t := things[0];
      assert t in things;
      if t.Bag? {
        FreePlacesAre(t.things);
      }
      FreePlacesAre(things[1..]);
    }
  }

  function IdsOfAll(containers: seq<seq<Thing>>): multiset<nat> {
    if containers == [] then multiset{} else Ids(containers[0]) + IdsOfAll(containers[1..])
  }

  lemma {:induction false} IdsOfAllAppend(containers: seq<seq<Thing>>, things: seq<Thing>)
    ensures IdsOfAll(containers + [things]) == IdsOfAll(containers) + Ids(things)
  {
    if containers == [] {
      assert containers + [things] == [things];
      assert [things][1..] == [];
    } else {
      assert (containers + [things])[1..] == containers[1..] + [things];
      IdsOfAllAppend(containers[1..], things);
    }
  }

  /** How much there is left to look through. */
  function Size(things: seq<Thing>): nat {
    if things == [] then 0 else SizeOf(things[0]) + Size(things[1..])
  }

  function SizeOf(t: Thing): nat {
    match t
    case Bag(_, things) => 1 + Size(things)
    case _ => 0
  }

  function SizeOfAll(containers: seq<seq<Thing>>): nat {
    if containers == [] then 0 else 1 + Size(containers[0]) + SizeOfAll(containers[1..])
  }

  lemma {:induction false} SizeOfAllAppend(containers: seq<seq<Thing>>, things: seq<Thing>)
    ensures SizeOfAll(containers + [things]) == SizeOfAll(containers) + 1 + Size(things)
  {
    if containers == [] {
      assert containers + [things] == [things];
      assert [things][1..] == [];
    } else {
      assert (containers + [things])[1..] == containers[1..] + [things];
      SizeOfAllAppend(containers[1..], things);
    }
  }

  ghost predicate Sorted(stacks: seq<Stack>, ids: seq<nat>) {
    && (forall i :: 0 <= i < |ids| ==> ids[i] < |stacks|)
    && (forall i, j :: 0 <= i < j < |ids| ==> ids[i] != ids[j] && stacks[ids[i]].Worth() <= stacks[ids[j]].Worth())
  }

  /** The stacks of a set, the others as if they were gone. */
  ghost function Masked(stacks: seq<Stack>, ids: seq<nat>): seq<Stack> {
    seq(|stacks|, i requires 0 <= i < |stacks| => if i in ids then stacks[i] else Stack(0, 0))
  }

  lemma {:induction false} NothingThere(s: seq<Stack>)
    requires forall i :: 0 <= i < |s| ==> s[i].Worth() == 0
    ensures Total(s) == 0
  {
    if s != [] {
      NothingThere(s[..|s|-1]);
    }
  }

  lemma {:induction false} SameWorth(s: seq<Stack>, t: seq<Stack>)
    requires |s| == |t| && forall i :: 0 <= i < |s| ==> s[i].Worth() == t[i].Worth()
    ensures Total(s) == Total(t)
  {
    if s != [] {
      SameWorth(s[..|s|-1], t[..|t|-1]);
    }
  }

  /** All stacks that are worth anything, in the order of their worth. */
  ghost predicate InOrder(stacks: seq<Stack>, ids: seq<nat>) {
    Sorted(stacks, ids) && forall id: nat {:trigger Listed(stacks, ids, id)} :: Listed(stacks, ids, id)
  }

  ghost predicate Listed(stacks: seq<Stack>, ids: seq<nat>, id: nat) {
    id in ids <==> id < |stacks| && stacks[id].Worth() != 0
  }

  /** The multimap of the coins found, by worth: ids is sorted, and has what is worth anything and not in left. */
  ghost predicate Gathered(stacks: seq<Stack>, ids: seq<nat>, left: multiset<nat>, moneyCount: nat) {
    && Sorted(stacks, ids)
    && (forall id: nat {:trigger Noted(stacks, ids, left, id)} :: Noted(stacks, ids, left, id))
    && moneyCount == Total(Masked(stacks, ids))
  }

  /** A stack is listed if it was found and is worth anything. */
  ghost predicate Noted(stacks: seq<Stack>, ids: seq<nat>, left: multiset<nat>, id: nat) {
    id in ids <==> id < |stacks| && id !in left && stacks[id].Worth() != 0
  }

  /** Puts an entry behind those that are worth no more. */
  method Emplace(stacks: seq<Stack>, ids: seq<nat>, id: nat) returns (ids': seq<nat>)
    requires Sorted(stacks, ids) && id < |stacks| && id !in ids
    ensures Sorted(stacks, ids') && forall x :: x in ids' <==> x in ids || x == id
    ensures Total(Masked(stacks, ids')) == Total(Masked(stacks, ids)) + stacks[id].Worth()
  {
    var p := |ids|;
    while p > 0 && stacks[ids[p-1]].Worth() > stacks[id].Worth()
      invariant 0 <= p <= |ids|
      invariant forall j :: p <= j < |ids| ==> stacks[id].Worth() < stacks[ids[j]].Worth()
    {
      p := p - 1;
    }
    ids' := ids[..p] + [id] + ids[p..];
    InsertMembers(ids, p, id);
    InsertSorted(stacks, ids, p, id);
    TotalUpdate(Masked(stacks, ids), id, stacks[id]);
    assert Masked(stacks, ids') == Masked(stacks, ids)[id := stacks[id]];
  }

  lemma InsertMembers(ids: seq<nat>, p: nat, id: nat)
    requires p <= |ids|
    ensures forall x :: x in ids[..p] + [id] + ids[p..] <==> x in ids || x == id
  {
    assert ids == ids[..p] + ids[p..];
  }

  lemma InsertSorted(stacks: seq<Stack>, ids: seq<nat>, p: nat, id: nat)
    requires Sorted(stacks, ids) && id < |stacks| && id !in ids && p <= |ids|
    requires forall j :: p <= j < |ids| ==> stacks[id].Worth() < stacks[ids[j]].Worth()
    requires p > 0 ==> stacks[ids[p-1]].Worth() <= stacks[id].Worth()
    ensures Sorted(stacks, ids[..p] + [id] + ids[p..])
  {
    var t := ids[..p] + [id] + ids[p..];
    forall i, j | 0 <= i < j < |t|
      ensures t[i] != t[j] && stacks[t[i]].Worth() <= stacks[t[j]].Worth()
    {
      var x, y := if i < p then i else i - 1, if j < p then j else j - 1;
      assert i != p ==> t[i] == ids[x];
      assert j != p ==> t[j] == ids[y];
      if j == p {
        assert stacks[ids[i]].Worth() <= stacks[ids[p-1]].Worth();
      }
    }
  }

  /** Every stack lies in the cylinder, at one place. */
  ghost predicate AllOnce(stacks: seq<Stack>, things: seq<Thing>) {
    forall id: nat :: Ids(things)[id] == if id < |stacks| then 1 else 0
  }

  /** Takes note of a stack. */
  method Count(stacks: seq<Stack>, ids: seq<nat>, moneyCount: nat, id: nat, ghost left: multiset<nat>)
    returns (ids': seq<nat>, moneyCount': nat)
    requires Gathered(stacks, ids, left, moneyCount) && id < |stacks| && left[id] == 1
    ensures Gathered(stacks, ids', left - multiset{id}, moneyCount')
  {
    ids', moneyCount' := ids, moneyCount;
    var worth := stacks[id].Worth();
    if worth != 0 {
      moneyCount' := moneyCount + worth;
      assert Noted(stacks, ids, left, id);
      ids' := Emplace(stacks, ids, id);
    }
    forall x: nat
      ensures Noted(stacks, ids', left - multiset{id}, x)
    {
      assert Noted(stacks, ids, left, x);
    }
  }

  lemma {:induction false} Queue(containers: seq<seq<Thing>>, n: nat, things: seq<Thing>)
    requires n <= |containers|
    ensures (containers + [things])[n..] == containers[n..] + [things]
    ensures IdsOfAll((containers + [things])[n..]) == IdsOfAll(containers[n..]) + Ids(things)
    ensures SizeOfAll((containers + [things])[n..]) == SizeOfAll(containers[n..]) + 1 + Size(things)
  {
    assert (containers + [things])[n..] == containers[n..] + [things];
    IdsOfAllAppend(containers[n..], things);
    SizeOfAllAppend(containers[n..], things);
  }

  lemma Regroup(a: multiset<nat>, b: multiset<nat>, c: multiset<nat>, d: multiset<nat>)
    ensures a + b + (c + d) == a + (b + c) + d
  {
  }

  ghost predicate AtMostOnce(stacks: seq<Stack>, left: multiset<nat>) {
    forall id: nat :: left[id] <= if id < |stacks| then 1 else 0
  }

  /** Looks at one thing of a list, with more behind it: counts it if it is coins, queues it if it is a container. */
  method Visit(stacks: seq<Stack>, thing: Thing, ghost base: multiset<nat>, ghost n: nat, ghost more: multiset<nat>,
               containers: seq<seq<Thing>>, ids: seq<nat>, moneyCount: nat, ghost left: multiset<nat>)
    returns (containers': seq<seq<Thing>>, ids': seq<nat>, moneyCount': nat, ghost left': multiset<nat>)
    requires n <= |containers| && Gathered(stacks, ids, left, moneyCount) && AtMostOnce(stacks, left)
    requires left == base + IdsOfAll(containers[n..]) + (IdsOf(thing) + more)
    ensures Gathered(stacks, ids', left', moneyCount') && AtMostOnce(stacks, left') && containers <= containers'
    ensures left' == base + IdsOfAll(containers'[n..]) + more
    ensures SizeOfAll(containers'[n..]) == SizeOfAll(containers[n..]) + SizeOf(thing)
  {
    containers', ids', moneyCount', left' := containers, ids, moneyCount, left;
    match thing
    case Bag(_, things) =>
      Queue(containers, n, things);
      Regroup(base, IdsOfAll(containers[n..]), Ids(things), more);
      containers' := containers + [things];
    case Money(id) =>
      assert id in left;
      ids', moneyCount' := Count(stacks, ids, moneyCount, id, left);
      left' := left - multiset{id};
    case Other =>
  }

  /** Looks through one list: takes note of its coins, puts its containers at the end of the queue. */
  method Scan(stacks: seq<Stack>, list: seq<Thing>, containers: seq<seq<Thing>>, ids: seq<nat>, moneyCount: nat,
              ghost left: multiset<nat>)
    returns (containers': seq<seq<Thing>>, ids': seq<nat>, moneyCount': nat, ghost left': multiset<nat>)
    requires Gathered(stacks, ids, left, moneyCount) && AtMostOnce(stacks, left) && Ids(list) <= left
    ensures Gathered(stacks, ids', left', moneyCount') && AtMostOnce(stacks, left') && containers <= containers'
    ensures left' == left - Ids(list) + IdsOfAll(containers'[|containers|..])
    ensures SizeOfAll(containers'[|containers|..]) <= Size(list)
  {
    containers', ids', moneyCount', left' := containers, ids, moneyCount, left;
    ghost var n := |containers|;
    ghost var base: multiset<nat> := left - Ids(list);
    assert list[0..] == list;
    for i := 0 to |list|
      invariant Gathered(stacks, ids', left', moneyCount') && AtMostOnce(stacks, left') && containers <= containers'
      invariant left' == base + IdsOfAll(containers'[n..]) + Ids(list[i..])
      invariant SizeOfAll(containers'[n..]) + Size(list[i..]) <= Size(list)
    {
      assert list[i..][0] == list[i] && list[i..][1..] == list[i+1..];
      containers', ids', moneyCount', left' :=
        Visit(stacks, list[i], base, n, Ids(list[i+1..]), containers', ids', moneyCount', left');
    }
  }

  /** Nothing was found yet. */
  lemma {:induction false} NothingFound(stacks: seq<Stack>, cylinder: seq<Thing>)
    requires AllOnce(stacks, cylinder)
    ensures Gathered(stacks, [], Ids(cylinder), 0) && AtMostOnce(stacks, Ids(cylinder))
  {
    NothingThere(Masked(stacks, []));
    forall id: nat
      ensures Noted(stacks, [], Ids(cylinder), id)
    {
      assert Ids(cylinder)[id] == if id < |stacks| then 1 else 0;
    }
  }

  /** Everything was found. */
  lemma {:induction false} AllFound(stacks: seq<Stack>, ids: seq<nat>, moneyCount: nat)
    requires Gathered(stacks, ids, multiset{}, moneyCount)
    ensures InOrder(stacks, ids) && moneyCount == Total(stacks)
  {
    forall id: nat
      ensures Listed(stacks, ids, id)
    {
      assert Noted(stacks, ids, multiset{}, id);
    }
    forall i | 0 <= i < |stacks|
      ensures Masked(stacks, ids)[i].Worth() == stacks[i].Worth()
    {
      assert Listed(stacks, ids, i);
    }
    SameWorth(Masked(stacks, ids), stacks);
  }

  /** What was noted so far, and the lists from i on that are still to be looked through. */
  ghost predicate Searching(stacks: seq<Stack>, containers: seq<seq<Thing>>, i: nat, ids: seq<nat>, moneyCount: nat) {
    && i <= |containers|
    && Gathered(stacks, ids, IdsOfAll(containers[i..]), moneyCount) && AtMostOnce(stacks, IdsOfAll(containers[i..]))
  }

  /** Looks through the next list in the queue. */
  method Next(stacks: seq<Stack>, containers: seq<seq<Thing>>, i: nat, ids: seq<nat>, moneyCount: nat)
    returns (containers': seq<seq<Thing>>, ids': seq<nat>, moneyCount': nat)
    requires Searching(stacks, containers, i, ids, moneyCount) && i < |containers|
    ensures Searching(stacks, containers', i + 1, ids', moneyCount')
    ensures SizeOfAll(containers'[i+1..]) < SizeOfAll(containers[i..])
  {
    ghost var left := IdsOfAll(containers[i..]);
    ghost var left';
    QueueMoved(containers, containers, i);
    Exchanged(left, Ids(containers[i]), IdsOfAll(containers[i+1..]), multiset{});
    containers', ids', moneyCount', left' := Scan(stacks, containers[i], containers, ids, moneyCount, left);
    QueueMoved(containers, containers', i);
    Exchanged(left, Ids(containers[i]), IdsOfAll(containers[i+1..]), IdsOfAll(containers'[|containers|..]));
    assert left' == IdsOfAll(containers'[i+1..]);
  }

  lemma Exchanged(left: multiset<nat>, list: multiset<nat>, others: multiset<nat>, more: multiset<nat>)
    requires left == list + others
    ensures list <= left && left - list + more == others + more
  {
  }

  /** Finds all coins of a cylinder, list by list, in the order of their worth. */
  method Gather(stacks: seq<Stack>, cylinder: seq<Thing>) returns (ids: seq<nat>, moneyCount: nat)
    requires AllOnce(stacks, cylinder)
    ensures InOrder(stacks, ids) && moneyCount == Total(stacks)
  {
    NothingFound(stacks, cylinder);
    var containers;
    ghost var left;
    containers, ids, moneyCount, left := Scan(stacks, cylinder, [], [], 0, Ids(cylinder));
    assert containers[0..] == containers;
    assert left == IdsOfAll(containers);
    var i := 0;
    while i < |containers|
      invariant 0 <= i <= |containers| && Searching(stacks, containers, i, ids, moneyCount)
      decreases SizeOfAll(containers[i..])
    {
      containers, ids, moneyCount := Next(stacks, containers, i, ids, moneyCount);
      i := i + 1;
    }
    AllFound(stacks, ids, moneyCount);
  }

  /** The queue without its first list, when others were put at its end. */
  lemma QueueMoved(before: seq<seq<Thing>>, after: seq<seq<Thing>>, i: nat)
    requires i < |before| && before <= after
    ensures IdsOfAll(before[i..]) == Ids(before[i]) + IdsOfAll(before[i+1..])
    ensures IdsOfAll(after[i+1..]) == IdsOfAll(before[i+1..]) + IdsOfAll(after[|before|..])
    ensures SizeOfAll(after[i+1..]) == SizeOfAll(before[i+1..]) + SizeOfAll(after[|before|..])
    ensures SizeOfAll(before[i..]) == 1 + Size(before[i]) + SizeOfAll(before[i+1..])
  {
    assert before[i..][1..] == before[i+1..];
    assert after[i+1..] == before[i+1..] + after[|before|..];
    AllConcat(before[i+1..], after[|before|..]);
  }

  lemma {:induction false} AllConcat(s: seq<seq<Thing>>, t: seq<seq<Thing>>)
    ensures IdsOfAll(s + t) == IdsOfAll(s) + IdsOfAll(t)
    ensures SizeOfAll(s + t) == SizeOfAll(s) + SizeOfAll(t)
  {
    if s == [] {
      assert s + t == t;
    } else {
      assert (s + t)[1..] == s[1..] + t;
      AllConcat(s[1..], t);
    }
  }
}
