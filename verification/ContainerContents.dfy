/** What a container holds at any depth: its weight, and the breadth-first iterator. */
module ContainerContents {
  import opened Basics
  import opened Containers

  // ---- weight

  /** An upper bound for the nesting depth. */
  ghost predicate Bounds(bound: nat, S: set<Item>)
    reads S`rank
  {
    forall x :: x in S ==> x.rank < bound
  }

  lemma {:induction false} BoundExists(S: set<Item>, T: set<Item>) returns (bound: nat)
    requires T <= S
    ensures Bounds(bound, T)
    decreases |T|
  {
    if T == {} {
      bound := 0;
    } else {
      var x :| x in T;
      var b := BoundExists(S, T - {x});
      bound := if b <= x.rank then x.rank + 1 else b;
    }
  }

  /** The weight of an item and of everything in it, computed from scratch. */
  ghost function TrueWeight(x: Item, S: set<Item>, bound: nat): int
    requires LinksOk(S) && Bounds(bound, S) && x in S
    reads S
    decreases bound - x.rank, |x.itemlist| + 1
  {
    assert LinkOk(x, S);
    x.OwnWeight() + TrueWeights(x, x.itemlist, S, bound)
  }

  ghost function TrueWeights(c: Item, s: seq<Item>, S: set<Item>, bound: nat): int
    requires LinksOk(S) && Bounds(bound, S) && c in S
    requires forall x :: x in s ==> x in c.itemlist
    reads S
    decreases bound - c.rank, |s|
  {
    assert LinkOk(c, S);
    assert s != [] ==> LinkOk(s[0], S);
    if s == [] then 0 else TrueWeights(c, s[1..], S, bound) + TrueWeight(s[0], S, bound)
  }

  /** The cached weight is the true one, for every container at every depth. */
  lemma {:induction false} CachedWeightIsTrue(x: Item, S: set<Item>, bound: nat)
    requires ForestOk(S) && Bounds(bound, S) && x in S
    ensures x.GetWeight() == TrueWeight(x, S, bound)
    decreases bound - x.rank, |x.itemlist| + 1
  {
    assert LinkOk(x, S) && Wanting(x, S) == 0;
    CachedWeightsAreTrue(x, x.itemlist, S, bound);
  }

  lemma {:induction false} CachedWeightsAreTrue(c: Item, s: seq<Item>, S: set<Item>, bound: nat)
    requires ForestOk(S) && Bounds(bound, S) && c in S
    requires forall x :: x in s ==> x in c.itemlist
    ensures SumOf(WeightMap(S), s) == TrueWeights(c, s, S, bound)
    decreases bound - c.rank, |s|
  {
    if s != [] {
      assert LinkOk(c, S) && LinkOk(s[0], S);
      CachedWeightsAreTrue(c, s[1..], S, bound);
      CachedWeightIsTrue(s[0], S, bound);
    }
  }

  // ---- the breadth-first iterator

  /** x is somewhere in c, at any depth. */
  ghost predicate Holds(c: Item, x: Item, S: set<Item>)
    requires LinksOk(S)
    reads S`parent, S`itemlist, S`rank
  {
    x in S && x != c && c in Around(x, S)
  }

  lemma HoldsChild(c: Item, y: Item, x: Item, S: set<Item>)
    requires LinksOk(S) && c in S && y in S && x in y.itemlist && (y == c || Holds(c, y, S))
    ensures x in S && x.parent == y && Holds(c, x, S)
  {
    assert LinkOk(y, S);
    assert LinkOk(x, S);
  }

  /** Where an iterator is: the containers in line, the cursor in the first of them, what was passed,
      and the containers that are finished. */
  datatype State = State(over: seq<Item>, cur: nat, passed: seq<Item>, finished: set<Item>)

  /** The lines run through so far: those finished and the front of the current one. */
  ghost predicate Behind(s: State, x: Item)
    reads x`parent, (set y | y in s.over)`itemlist
  {
    && x.parent != null
    && (x.parent in s.finished
        || (s.over != [] && x.parent == s.over[0] && s.cur <= |s.over[0].itemlist| && x in s.over[0].itemlist[..s.cur]))
  }

  ghost predicate InLine(s: State, x: Item) { x in s.over || x in s.finished }

  /** The containers in line, and the cursor, make sense. */
  ghost predicate LineOk(s: State, S: set<Item>)
    reads S`itemlist
  {
    && Distinct(s.over)
    && (forall x :: x in s.over ==> x in S && x.itemlist != [] && x !in s.finished)
    && s.finished <= S
    && (s.over != [] ==> s.cur < |s.over[0].itemlist|)
  }

  /** What was passed is, each item once, what lies behind, and is held by c. */
  ghost predicate PassedOk(s: State, c: Item, S: set<Item>)
    requires LinksOk(S) && LineOk(s, S)
    reads S`parent, S`itemlist, S`rank
  {
    && Distinct(s.passed)
    && (forall x :: x in s.passed ==> x in S && Behind(s, x) && Holds(c, x, S))
    && (forall x :: x in S && Behind(s, x) ==> x in s.passed)
  }

  /** In line, or finished, are the start and the containers passed, if they hold anything. */
  ghost predicate CoverOk(s: State, c: Item, S: set<Item>)
    reads S`itemlist
  {
    && (forall x :: x in s.over ==> x == c || x in s.passed)
    && (forall x :: x in s.finished ==> x == c || x in s.passed)
    && (forall x :: x in S && (x == c || x in s.passed) && x.itemlist != [] ==> InLine(s, x))
  }

  ghost predicate Iterating(s: State, c: Item, S: set<Item>)
    requires LinksOk(S)
    reads S`parent, S`itemlist, S`rank
  {
    c in S && LineOk(s, S) && PassedOk(s, c, S) && CoverOk(s, c, S)
  }

  /** One step: the current item is passed, and gets in line if it holds anything. */
  function Step(s: State, i: Item, opens: bool, last: bool): State
    requires s.over != []
  {
    var over := if opens then s.over + [i] else s.over;
    if last then State(over[1..], 0, s.passed + [i], s.finished + {s.over[0]})
    else State(over, s.cur + 1, s.passed + [i], s.finished)
  }

  lemma BehindStep(s: State, t: State, x: Item, c: Item, S: set<Item>)
    requires LinksOk(S) && Iterating(s, c, S) && s.over != [] && x in S
    requires var front := s.over[0];
      t == Step(s, front.itemlist[s.cur], front.itemlist[s.cur].itemlist != [], s.cur + 1 == |front.itemlist|)
    ensures Behind(t, x) <==> Behind(s, x) || x == s.over[0].itemlist[s.cur]
  {
    var front := s.over[0];
    var i := front.itemlist[s.cur];
    assert LinkOk(x, S) && LinkOk(front, S) && LinkOk(i, S);
    assert front.itemlist[..s.cur + 1] == front.itemlist[..s.cur] + [i];
    if x.parent == front {
      assert s.cur + 1 == |front.itemlist| ==> front.itemlist[..s.cur + 1] == front.itemlist;
      assert s.cur + 1 < |front.itemlist| ==> t.over[0] == front;
    }
  }

  /** The item at the cursor was not passed before and is not in line. */
  lemma CurrentIsNew(s: State, c: Item, S: set<Item>)
    requires LinksOk(S) && Iterating(s, c, S) && s.over != []
    ensures var i := s.over[0].itemlist[s.cur];
      i in S && i.parent == s.over[0] && i != c && i !in s.passed && !InLine(s, i) && Holds(c, i, S)
  {
    var front := s.over[0];
    var i := front.itemlist[s.cur];
    assert LinkOk(front, S) && LinkOk(i, S);
    assert front == c || Holds(c, front, S);
    HoldsChild(c, front, i, S);
    assert i !in front.itemlist[..s.cur];
    assert !Behind(s, i);
  }

  lemma StepKeepsLine(s: State, c: Item, S: set<Item>)
    requires LinksOk(S) && Iterating(s, c, S) && s.over != []
    ensures var i := s.over[0].itemlist[s.cur];
      var t := Step(s, i, i.itemlist != [], s.cur + 1 == |s.over[0].itemlist|);
      LineOk(t, S) && CoverOk(t, c, S)
  {
    var front := s.over[0];
    var i := front.itemlist[s.cur];
    CurrentIsNew(s, c, S);
    assert LinkOk(front, S) && LinkOk(i, S);
    var over := if i.itemlist != [] then s.over + [i] else s.over;
    assert over[0] == front && Distinct(over);
    assert forall x :: x in over <==> x in s.over || (x == i && i.itemlist != []);
    FirstOut(over);
  }

  /** Without the first, the others are left. */
  lemma FirstOut(line: seq<Item>)
    requires line != [] && Distinct(line)
    ensures Distinct(line[1..]) && forall x :: x in line[1..] <==> x in line && x != line[0]
  {
    assert line == [line[0]] + line[1..];
  }

  lemma StepKeepsPassed(s: State, c: Item, S: set<Item>)
    requires LinksOk(S) && Iterating(s, c, S) && s.over != []
    ensures var i := s.over[0].itemlist[s.cur];
      var t := Step(s, i, i.itemlist != [], s.cur + 1 == |s.over[0].itemlist|);
      LineOk(t, S) && PassedOk(t, c, S)
  {
    var i := s.over[0].itemlist[s.cur];
    var t := Step(s, i, i.itemlist != [], s.cur + 1 == |s.over[0].itemlist|);
    CurrentIsNew(s, c, S);
    StepKeepsLine(s, c, S);
    forall x | x in S
      ensures Behind(t, x) <==> Behind(s, x) || x == i
    {
      BehindStep(s, t, x, c, S);
    }
  }

  lemma StepKeeps(s: State, c: Item, S: set<Item>)
    requires LinksOk(S) && Iterating(s, c, S) && s.over != []
    ensures var i := s.over[0].itemlist[s.cur];
      && i in S && (!i.isContainer ==> i.itemlist == [])
      && Iterating(Step(s, i, i.itemlist != [], s.cur + 1 == |s.over[0].itemlist|), c, S)
  {
    StepKeepsLine(s, c, S);
    StepKeepsPassed(s, c, S);
    CurrentIsNew(s, c, S);
    assert LinkOk(s.over[0].itemlist[s.cur], S);
  }

  /** When nothing is in line any more, everything the container holds was passed. */
  lemma {:induction false} AllPassed(s: State, c: Item, x: Item, S: set<Item>)
    requires LinksOk(S) && Iterating(s, c, S) && s.over == [] && Holds(c, x, S)
    ensures x in s.passed
    decreases x.rank
  {
    assert LinkOk(x, S);
    var y := x.parent;
    assert LinkOk(y, S);
    if y != c {
      AllPassed(s, c, y, S);
    }
    assert InLine(s, y);
    assert Behind(s, x);
  }

  lemma {:induction false} DistinctCount(s: seq<Item>)
    requires Distinct(s)
    ensures |set x | x in s| == |s|
  {
    if s != [] {
      DistinctCount(s[1..]);
      assert (set x | x in s) == (set x | x in s[1..]) + {s[0]};
    }
  }

  /** Everything held by c, at any depth. */
  ghost function Held(c: Item, S: set<Item>): set<Item>
    requires LinksOk(S)
    reads S`parent, S`itemlist, S`rank
  {
    set x | x in S && Holds(c, x, S)
  }

  lemma IteratorIsDone(s: State, c: Item, S: set<Item>)
    requires LinksOk(S) && Iterating(s, c, S) && s.over == []
    ensures (set x | x in s.passed) == Held(c, S)
    ensures |s.passed| == |Held(c, S)|
    ensures forall x :: x in S && Holds(c, x, S) ==> x in s.passed
  {
    forall x | x in Held(c, S)
      ensures x in s.passed
    {
      AllPassed(s, c, x, S);
    }
    DistinctCount(s.passed);
  }

  lemma PassedIsSmall(s: State, c: Item, S: set<Item>)
    requires LinksOk(S) && Iterating(s, c, S)
    ensures |s.passed| <= |S|
  {
    DistinctCount(s.passed);
    SubsetIsSmaller((set x | x in s.passed), S);
  }

  lemma {:induction false} SubsetIsSmaller(A: set<Item>, B: set<Item>)
    requires A <= B
    ensures |A| <= |B|
  {
    assert B == A + (B - A);
  }

  class ContainerIterator {
    var over: seq<Item>
    var cur: nat
    ghost var passed: seq<Item>
    ghost var finished: set<Item>

    ghost function View(): State
      reads this
    {
      State(over, cur, passed, finished)
    }

    constructor (c: Item, ghost S: set<Item>)
      requires LinksOk(S) && c in S
      ensures Iterating(View(), c, S) && passed == []
    {
      over := if c.itemlist == [] then [] else [c];
      cur := 0;
      passed, finished := [], {};
      new;
      assert LinkOk(c, S);
    }

    predicate HasNext()
      reads this
    {
      over != []
    }

    /** The item at the cursor. */
    function Current(): Item
      requires HasNext() && cur < |over[0].itemlist|
      reads this, {over[0]}`itemlist
    {
      over[0].itemlist[cur]
    }

    /** Steps to the next item. */
    method Advance(ghost c: Item, ghost S: set<Item>)
      requires LinksOk(S) && Iterating(View(), c, S) && HasNext()
      modifies this
      ensures Iterating(View(), c, S) && passed == old(passed) + [old(Current())] && |passed| <= |S|
    {
      StepKeeps(View(), c, S);
      Move();
      PassedIsSmall(View(), c, S);
    }

    /** A container that holds anything is put in line. */
    method Move()
      requires HasNext() && cur < |over[0].itemlist| && (!Current().isContainer ==> Current().itemlist == [])
      modifies this
      ensures View() == old(Step(View(), Current(), Current().itemlist != [], cur + 1 == |over[0].itemlist|))
    {
      var i := over[0].itemlist[cur];
      var front := over[0];
      passed := passed + [i];
      if i.isContainer {
        if i.itemlist != [] {
          over := over + [i];
        }
      }
      cur := cur + 1;
      if cur == |front.itemlist| {
        finished := finished + {front};
        over := over[1..];
        cur := 0;
      }
    }
  }

  /** Counts what a container holds, at any depth. */
  method GetItemHoldingCount(c: Item, ghost S: set<Item>) returns (counter: nat)
    requires LinksOk(S) && c in S
    ensures counter == |Held(c, S)|
  {
    counter := 0;
    var it := new ContainerIterator(c, S);
    while it.HasNext()
      invariant fresh(it) && Iterating(it.View(), c, S) && counter == |it.passed|
      decreases |S| - |it.passed|
    {
      it.Advance(c, S);
      counter := counter + 1;
    }
    IteratorIsDone(it.View(), c, S);
  }

  /** Whether a container holds an item, at any depth. */
  method IsHoldingItem(c: Item, item: Item, ghost S: set<Item>) returns (holding: bool)
    requires LinksOk(S) && c in S
    ensures holding <==> Holds(c, item, S)
  {
    var it := new ContainerIterator(c, S);
    while it.HasNext()
      invariant fresh(it) && Iterating(it.View(), c, S) && item !in it.passed
      decreases |S| - |it.passed|
    {
      CurrentIsNew(it.View(), c, S);
      if it.Current() == item {
        return true;
      }
      it.Advance(c, S);
    }
    IteratorIsDone(it.View(), c, S);
    return false;
  }
}
