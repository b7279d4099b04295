/** Trading: who trades with whom, how far they are, and the ledger of the items offered. */
module Trade {
  import opened Basics

  datatype TradeState = Idle | Initiated | Accepted | Acknowledged | Transferring

  /** What a player knows of a trade; players and items are known by number. */
  datatype Trader = Trader(state: TradeState, partner: Option<nat>, item: Option<nat>)

  const NOT_TRADING := Trader(Idle, None, None)

  /** All players, and the items offered with the player who offers each. */
  datatype Trades = Trades(traders: map<nat, Trader>, items: map<nat, nat>)

  // ---- what holds between the steps

  /** A player's part in a trade, where the players of moving are just exchanging their items. */
  ghost predicate TraderOk(t: Trades, p: nat, moving: set<nat>)
    requires p in t.traders
  {
    var r := t.traders[p];
    && (r.state == Idle <==> r.partner.None?)
    && (r.state == Idle || r.state == Acknowledged ==> r.item.None?)
    && (r.state == Initiated ==> r.item.Some?)
    && (r.state == Transferring <==> p in moving)
    && (r.partner.Some? ==> PartnersOk(t, p, r.partner.value, moving))
    && (r.item.Some? && p !in moving ==> r.item.value in t.items && t.items[r.item.value] == p)
  }

  ghost predicate PartnersOk(t: Trades, p: nat, q: nat, moving: set<nat>)
    requires p in t.traders
  {
    && q in t.traders && q != p
    && t.traders[q].partner == Some(p)
    && (p in moving <==> q in moving)
    && (t.traders[p].item.Some? || t.traders[q].item.Some?)
  }

  ghost predicate EntryOk(t: Trades, x: nat, moving: set<nat>)
    requires x in t.items
  {
    t.items[x] in t.traders && t.items[x] !in moving && t.traders[t.items[x]].item == Some(x)
  }

  ghost predicate Consistent(t: Trades, moving: set<nat>) {
    && moving <= t.traders.Keys
    && (forall p {:trigger TraderOk(t, p, moving)} :: p in t.traders ==> TraderOk(t, p, moving))
    && (forall x {:trigger EntryOk(t, x, moving)} :: x in t.items ==> EntryOk(t, x, moving))
  }

  /** Both partners have accepted, which calls for an exchange. */
  ghost predicate Due(t: Trades, p: nat)
    requires p in t.traders
  {
    var r := t.traders[p];
    r.state == Accepted && r.partner.Some? && r.partner.value in t.traders
        && t.traders[r.partner.value].state == Accepted
  }

  ghost predicate NoneDue(t: Trades) {
    forall p {:trigger Due(t, p)} :: p in t.traders ==> !Due(t, p)
  }

  ghost predicate AtRest(t: Trades) {
    Consistent(t, {}) && NoneDue(t)
  }

  // ---- the steps

  function Without(items: map<nat, nat>, item: Option<nat>): map<nat, nat> {
    if item.Some? then items - {item.value} else items
  }

  /** A player offers an item to another. */
  function StartTrade(t: Trades, p: nat, q: nat, item: nat): Trades
    requires p in t.traders && q in t.traders
  {
    var r, s := t.traders[p], t.traders[q];
    if r.state != Idle && !(r.state == Acknowledged && r.partner == Some(q)) then t
    else if s.state != Idle && s.partner != Some(p) then t
    else
      var s' := if s.state == Idle then Trader(Acknowledged, Some(p), s.item) else s;
      Trades(t.traders[p := Trader(Initiated, Some(q), Some(item))][q := s'], t.items[item := p])
  }

  /** A player gives up a trade; nothing happens in the middle of an exchange. */
  function Close(t: Trades, p: nat): Trades
    requires p in t.traders
  {
    var r := t.traders[p];
    if r.partner.None? || r.partner.value !in t.traders then
      if r.state == Transferring then t
      else Trades(t.traders[p := NOT_TRADING], Without(t.items, r.item))
    else
      var s := t.traders[r.partner.value];
      if r.state == Transferring || s.state == Transferring then t
      else
        Trades(t.traders[p := NOT_TRADING][r.partner.value := NOT_TRADING], Without(Without(t.items, r.item), s.item))
  }

  /** Players who give up their trades, one after the other. */
  function CloseAll(t: Trades, players: seq<nat>): (t': Trades)
    ensures t'.traders.Keys == t.traders.Keys
    decreases |players|
  {
    if players == [] then t
    else CloseAll(if players[0] in t.traders then Close(t, players[0]) else t, players[1..])
  }

  /** The start of an exchange: both are in it, and their items leave the ledger. */
  function Begin(t: Trades, p: nat, q: nat): Trades
    requires p in t.traders && q in t.traders
  {
    var r, s := t.traders[p], t.traders[q];
    Trades(t.traders[p := r.(state := Transferring)][q := s.(state := Transferring)],
           Without(Without(t.items, r.item), s.item))
  }

  /** The end of an exchange. */
  function Finish(t: Trades, p: nat, q: nat): Trades {
    t.(traders := t.traders[p := NOT_TRADING][q := NOT_TRADING])
  }

  /** What others decide while a player accepts: whether the partners see each other, whether the script allows the
      exchange, whether both items could be added and removed, whether the player's own item is moved and then
      whether the partner's is, and who gives up a trade while they move. */
  datatype Verdict = Verdict(
    inSight: bool, allowed: bool, addable: bool, removable: bool, movesOwn: bool, movesOther: bool, closers: seq<nat>)

  /** What changes hands: the item a player gives, the one the player gets, and whether that is called a success. */
  datatype Exchanged = Exchanged(success: bool, given: Option<nat>, got: Option<nat>)

  const NOTHING := Exchanged(false, None, None)

  /** The partner of a player who can accept now. */
  function AcceptsFrom(t: Trades, p: nat, v: Verdict): (q: Option<nat>)
    requires p in t.traders
    ensures q.Some? ==> q.value in t.traders
  {
    var r := t.traders[p];
    if (r.state == Acknowledged || r.state == Initiated) && r.partner.Some? && r.partner.value in t.traders && v.inSight
    then r.partner else None
  }

  /** A player accepts; if the partner has, the trade ends, be it with an exchange or without. */
  function AcceptTrade(t: Trades, p: nat, v: Verdict): Trades
    requires p in t.traders
  {
    var q := AcceptsFrom(t, p, v);
    if q.None? then t
    else
      var accepted := t.(traders := t.traders[p := t.traders[p].(state := Accepted)]);
      if t.traders[q.value].state != Accepted then accepted
      else if !v.allowed then Close(accepted, p)
      else Finish(CloseAll(Begin(accepted, p, q.value), v.closers), p, q.value)
  }

  /** Once the player's own item has been moved it is a success; nobody asks whether the other one was. */
  function Swap(item1: Option<nat>, item2: Option<nat>, v: Verdict): Exchanged {
    if item1.None? || item2.None? || !v.addable || !v.removable || !v.movesOwn then NOTHING
    else Exchanged(true, item1, if v.movesOther then item2 else None)
  }

  /** The items that change hands when a player accepts: the player's own, and the one for it. */
  function Exchange(t: Trades, p: nat, v: Verdict): Exchanged
    requires p in t.traders
  {
    var q := AcceptsFrom(t, p, v);
    if q.None? || t.traders[q.value].state != Accepted || !v.allowed then NOTHING
    else Swap(t.traders[p].item, t.traders[q.value].item, v)
  }

  // ---- every step keeps it

  lemma StartKeeps(t: Trades, p: nat, q: nat, item: nat)
    requires AtRest(t) && p in t.traders && q in t.traders && p != q && item !in t.items
    ensures AtRest(StartTrade(t, p, q, item))
  {
    var t' := StartTrade(t, p, q, item);
    if t' != t {
      assert TraderOk(t, p, {}) && TraderOk(t, q, {});
      forall x | x in t'.traders ensures TraderOk(t', x, {}) && !Due(t', x) {
        assert TraderOk(t, x, {}) && !Due(t, x);
      }
      forall x | x in t'.items ensures EntryOk(t', x, {}) {
        assert x != item ==> EntryOk(t, x, {});
      }
    }
  }

  lemma CloseKeeps(t: Trades, p: nat, moving: set<nat>)
    requires Consistent(t, moving) && p in t.traders
    ensures Consistent(Close(t, p), moving)
    ensures forall x :: x in moving ==> Close(t, p).traders[x] == t.traders[x]
    ensures forall x {:trigger Due(Close(t, p), x)} :: x in t.traders && Due(Close(t, p), x) ==>
      Due(t, x) && x != p && t.traders[p].partner != Some(x)
  {
    var t' := Close(t, p);
    assert TraderOk(t, p, moving);
    if t.traders[p].partner.Some? {
      assert TraderOk(t, t.traders[p].partner.value, moving);
    }
    forall x | x in t'.traders ensures TraderOk(t', x, moving) {
      assert TraderOk(t, x, moving);
    }
    forall x | x in t'.items ensures EntryOk(t', x, moving) {
      assert EntryOk(t, x, moving);
    }
  }

  lemma {:induction false} CloseAllKeeps(t: Trades, players: seq<nat>, moving: set<nat>)
    requires Consistent(t, moving)
    ensures Consistent(CloseAll(t, players), moving)
    ensures forall x :: x in moving ==> CloseAll(t, players).traders[x] == t.traders[x]
    ensures NoneDue(t) ==> NoneDue(CloseAll(t, players))
    decreases |players|
  {
    if players != [] {
      var p := players[0];
      if p in t.traders {
        CloseKeeps(t, p, moving);
        CloseAllKeeps(Close(t, p), players[1..], moving);
      } else {
        CloseAllKeeps(t, players[1..], moving);
      }
    }
  }

  lemma BeginKeeps(t: Trades, p: nat, q: nat)
    requires Consistent(t, {}) && p in t.traders && t.traders[p].partner == Some(q)
    requires forall x {:trigger Due(t, x)} :: x in t.traders && Due(t, x) ==> x == p || x == q
    ensures q in t.traders && Consistent(Begin(t, p, q), {p, q}) && NoneDue(Begin(t, p, q))
  {
    assert TraderOk(t, p, {});
    assert TraderOk(t, q, {});
    var t' := Begin(t, p, q);
    forall x | x in t'.traders ensures TraderOk(t', x, {p, q}) && !Due(t', x) {
      assert TraderOk(t, x, {}) && (Due(t, x) ==> x == p || x == q);
    }
    forall x | x in t'.items ensures EntryOk(t', x, {p, q}) {
      assert EntryOk(t, x, {});
    }
  }

  lemma FinishKeeps(t: Trades, p: nat, q: nat)
    requires Consistent(t, {p, q}) && NoneDue(t) && t.traders[p].partner == Some(q)
    ensures AtRest(Finish(t, p, q))
  {
    assert TraderOk(t, p, {p, q});
    assert TraderOk(t, q, {p, q});
    var t' := Finish(t, p, q);
    forall x | x in t'.traders ensures TraderOk(t', x, {}) && !Due(t', x) {
      assert TraderOk(t, x, {p, q}) && !Due(t, x);
    }
    forall x | x in t'.items ensures EntryOk(t', x, {}) {
      assert EntryOk(t, x, {p, q});
    }
  }

  /** With one more acceptance only that player's trade can be due. */
  lemma AcceptedKeeps(t: Trades, p: nat, q: nat)
    requires AtRest(t) && p in t.traders && t.traders[p].partner == Some(q)
    requires t.traders[p].state == Acknowledged || t.traders[p].state == Initiated
    ensures q in t.traders
    ensures var accepted := t.(traders := t.traders[p := t.traders[p].(state := Accepted)]);
      Consistent(accepted, {}) && forall x {:trigger Due(accepted, x)} :: x in t.traders && Due(accepted, x) ==>
        t.traders[q].state == Accepted && (x == p || x == q)
  {
    var accepted := t.(traders := t.traders[p := t.traders[p].(state := Accepted)]);
    assert TraderOk(t, p, {});
    assert TraderOk(t, q, {});
    forall x | x in accepted.traders ensures TraderOk(accepted, x, {}) {
      assert TraderOk(t, x, {});
    }
    forall x | x in accepted.items ensures EntryOk(accepted, x, {}) {
      assert EntryOk(t, x, {});
    }
    forall x | x in t.traders && Due(accepted, x) ensures t.traders[q].state == Accepted && (x == p || x == q) {
      assert !Due(t, x) && TraderOk(t, x, {});
    }
  }

  lemma AcceptKeeps(t: Trades, p: nat, v: Verdict)
    requires AtRest(t) && p in t.traders
    ensures AtRest(AcceptTrade(t, p, v))
  {
    var from := AcceptsFrom(t, p, v);
    if from.Some? {
      var q := from.value;
      var accepted := t.(traders := t.traders[p := t.traders[p].(state := Accepted)]);
      AcceptedKeeps(t, p, q);
      if t.traders[q].state == Accepted {
        CloseKeeps(accepted, p, {});
        BeginKeeps(accepted, p, q);
        var begun := Begin(accepted, p, q);
        CloseAllKeeps(begun, v.closers, {p, q});
        FinishKeeps(CloseAll(begun, v.closers), p, q);
      }
    }
  }

  // ---- runs

  datatype Step =
    | Request(player: nat, partner: nat, item: nat, willing: bool)
    | Accept(player: nat, verdict: Verdict)
    | GiveUp(player: nat)

  /** A request, an acceptance or a refusal, by any player, in any state. */
  function Take(t: Trades, step: Step): Trades {
    if step.player !in t.traders then t
    else match step
      case Request(p, q, item, willing) =>
        if q !in t.traders || p == q || item in t.items || !willing then t else StartTrade(t, p, q, item)
      case Accept(p, v) => AcceptTrade(t, p, v)
      case GiveUp(p) => Close(t, p)
  }

  function Run(t: Trades, steps: seq<Step>): Trades
    decreases |steps|
  {
    if steps == [] then t else Run(Take(t, steps[0]), steps[1..])
  }

  lemma {:induction false} RunKeeps(t: Trades, steps: seq<Step>)
    requires AtRest(t)
    ensures AtRest(Run(t, steps))
    decreases |steps|
  {
    if steps != [] {
      var step := steps[0];
      if step.player in t.traders {
        match step
        case Request(p, q, item, willing) =>
          if q in t.traders && p != q && item !in t.items {
            StartKeeps(t, p, q, item);
          }
        case Accept(p, v) => AcceptKeeps(t, p, v);
        case GiveUp(p) => CloseKeeps(t, p, {});
      }
      RunKeeps(Take(t, step), steps[1..]);
    }
  }

  /** Between steps nobody is exchanging, partners name each other, one of two partners has not accepted,
      and the ledger has each offered item, with the one player who offers it, and nothing else. */
  lemma RestMeans(t: Trades)
    requires AtRest(t)
    ensures forall p :: p in t.traders ==> t.traders[p].state != Transferring
    ensures forall p :: p in t.traders ==> (t.traders[p].state == Idle <==> t.traders[p].partner == None)
    ensures forall p, q :: p in t.traders && t.traders[p].partner == Some(q) ==>
      q in t.traders && q != p && t.traders[q].partner == Some(p)
          && !(t.traders[p].state == Accepted && t.traders[q].state == Accepted)
    ensures forall x, p :: (x in t.items && t.items[x] == p) <==> (p in t.traders && t.traders[p].item == Some(x))
  {
    forall p | p in t.traders ensures TraderOk(t, p, {}) && !Due(t, p) {
    }
    forall x, p ensures (x in t.items && t.items[x] == p) <==> (p in t.traders && t.traders[p].item == Some(x)) {
      if x in t.items {
        assert EntryOk(t, x, {});
      }
      if p in t.traders {
        assert TraderOk(t, p, {});
      }
    }
  }

  /** The partner has accepted, the player may, and nothing forbids the exchange of the two items. */
  ghost predicate Exchanges(t: Trades, p: nat, v: Verdict)
    requires p in t.traders
  {
    var r := t.traders[p];
    && (r.state == Acknowledged || r.state == Initiated) && r.partner.Some? && r.partner.value in t.traders
    && t.traders[r.partner.value].state == Accepted && r.item.Some? && t.traders[r.partner.value].item.Some?
    && v.inSight && v.allowed && v.addable && v.removable
  }

  /** Nothing changes hands unless the player's own item can be moved; then that does, and the other one exactly
      if it can be moved too. What does is what the two offer, both have accepted, and both are free afterwards. */
  lemma ExchangeIsAgreed(t: Trades, p: nat, v: Verdict)
    requires AtRest(t) && p in t.traders
    ensures var e := Exchange(t, p, v);
      && (e.given.Some? <==> Exchanges(t, p, v) && v.movesOwn)
      && (e.got.Some? <==> Exchanges(t, p, v) && v.movesOwn && v.movesOther)
      && (e.success <==> e.given.Some?)
    ensures Exchanges(t, p, v) ==>
      var e, q, t' := Exchange(t, p, v), t.traders[p].partner.value, AcceptTrade(t, p, v);
      var x, y := t.traders[p].item.value, t.traders[q].item.value;
      && (e.given.Some? ==> e.given.value == x) && (e.got.Some? ==> e.got.value == y) && x != y
      && x in t.items && y in t.items && t.items[x] == p && t.items[y] == q
      && t'.traders[p] == NOT_TRADING && t'.traders[q] == NOT_TRADING && x !in t'.items && y !in t'.items
  {
    assert TraderOk(t, p, {});
    if Exchanges(t, p, v) {
      var q := t.traders[p].partner.value;
      assert TraderOk(t, q, {});
      var accepted := t.(traders := t.traders[p := t.traders[p].(state := Accepted)]);
      CloseAllShrinks(Begin(accepted, p, q), v.closers);
    }
  }

  /** Two players offer an item each, both accept, and the second item cannot be moved: one has given something for
      nothing, and it is called a success. */
  lemma OneSidedExchange(p: nat, q: nat, x: nat, y: nat, v: Verdict) returns (steps: seq<Step>)
    requires p != q && x != y
    requires v.inSight && v.allowed && v.addable && v.removable && v.movesOwn && !v.movesOther
    ensures var t0 := Trades(map[p := NOT_TRADING, q := NOT_TRADING], map[]);
      var t := Run(t0, steps);
      AtRest(t0) && AtRest(t) && p in t.traders && Exchange(t, p, v) == Exchanged(true, Some(x), None)
  {
    var t0 := Trades(map[p := NOT_TRADING, q := NOT_TRADING], map[]);
    forall r | r in t0.traders ensures TraderOk(t0, r, {}) && !Due(t0, r) {
    }
    steps := [Request(p, q, x, true), Request(q, p, y, true), Accept(q, v)];
    var t1 := Take(t0, steps[0]);
    var t2 := Take(t1, steps[1]);
    assert t1.traders == map[p := Trader(Initiated, Some(q), Some(x)), q := Trader(Acknowledged, Some(p), None)];
    assert t2.traders == map[p := Trader(Initiated, Some(q), Some(x)), q := Trader(Initiated, Some(p), Some(y))];
    assert steps[1..][1..] == [steps[2]] && steps[1..][0] == steps[1] && [steps[2]][1..] == [];
    assert Run(t0, steps) == Run(t1, steps[1..]) == Run(t2, [steps[2]]) == Run(Take(t2, steps[2]), []);
    RunKeeps(t0, steps);
  }

  lemma {:induction false} CloseAllShrinks(t: Trades, players: seq<nat>)
    ensures CloseAll(t, players).items.Keys <= t.items.Keys
    decreases |players|
  {
    if players != [] {
      CloseAllShrinks(if players[0] in t.traders then Close(t, players[0]) else t, players[1..]);
    }
  }

  /** Giving up ends a trade for both partners, takes their items off the ledger, and changes nothing else. */
  lemma CloseEndsTheTrade(t: Trades, p: nat)
    requires AtRest(t) && p in t.traders
    ensures var t', partner := Close(t, p), t.traders[p].partner;
      && (forall x :: x in t.traders ==>
          t'.traders[x] == if x == p || partner == Some(x) then NOT_TRADING else t.traders[x])
      && (forall x :: x in t'.items <==> x in t.items && t.items[x] != p && partner != Some(t.items[x]))
      && (forall x :: x in t'.items ==> t'.items[x] == t.items[x])
  {
    assert TraderOk(t, p, {});
    var partner := t.traders[p].partner;
    if partner.Some? {
      assert TraderOk(t, partner.value, {});
    }
    forall x | x in t.items
      ensures x in Close(t, p).items <==> t.items[x] != p && partner != Some(t.items[x])
    {
      assert EntryOk(t, x, {});
    }
  }

  /** A player who accepts, and those who give up while items move, touch no trade but their own. */
  lemma OthersGoOn(t: Trades, p: nat, v: Verdict, x: nat)
    requires AtRest(t) && p in t.traders && x in t.traders
    requires x != p && t.traders[x].partner != Some(p) && x !in v.closers
    requires forall c :: c in v.closers ==> t.traders[x].partner != Some(c)
    ensures AcceptTrade(t, p, v).traders[x] == t.traders[x]
  {
    RestMeans(t);
    var from := AcceptsFrom(t, p, v);
    if from.Some? && t.traders[from.value].state == Accepted && v.allowed {
      var q := from.value;
      var accepted := t.(traders := t.traders[p := t.traders[p].(state := Accepted)]);
      AcceptedKeeps(t, p, q);
      BeginKeeps(accepted, p, q);
      CloseAllSpares(Begin(accepted, p, q), v.closers, {p, q}, x);
    }
  }

  lemma {:induction false} CloseAllSpares(t: Trades, players: seq<nat>, moving: set<nat>, x: nat)
    requires Consistent(t, moving) && x in t.traders && x !in players
    requires forall c :: c in players ==> t.traders[x].partner != Some(c)
    ensures CloseAll(t, players).traders[x] == t.traders[x]
    decreases |players|
  {
    if players != [] {
      var p := players[0];
      if p in t.traders {
        assert TraderOk(t, p, moving);
        CloseKeeps(t, p, moving);
        CloseAllSpares(Close(t, p), players[1..], moving, x);
      } else {
        CloseAllSpares(t, players[1..], moving, x);
      }
    }
  }

  /** Who is free when some give up their trades: they, and those they trade with. */
  predicate IsFreed(t: Trades, players: seq<nat>, x: nat)
    requires x in t.traders
  {
    x in players || (t.traders[x].partner.Some? && t.traders[x].partner.value in players)
  }

  lemma {:induction false} FreeStaysFree(t: Trades, players: seq<nat>, x: nat)
    requires x in t.traders && t.traders[x] == NOT_TRADING
    ensures CloseAll(t, players).traders[x] == NOT_TRADING
    decreases |players|
  {
    if players != [] {
      FreeStaysFree(if players[0] in t.traders then Close(t, players[0]) else t, players[1..], x);
    }
  }

  /** Outside an exchange exactly those are freed. */
  lemma {:induction false} CloseAllFrees(t: Trades, players: seq<nat>, moving: set<nat>, x: nat)
    requires Consistent(t, moving) && x in t.traders && x !in moving
    ensures CloseAll(t, players).traders[x] == if IsFreed(t, players, x) then NOT_TRADING else t.traders[x]
    decreases |players|
  {
    if players != [] {
      var c := players[0];
      assert players == [c] + players[1..];
      assert TraderOk(t, x, moving);
      if c in t.traders {
        assert TraderOk(t, c, moving);
        if t.traders[x].partner.Some? {
          assert TraderOk(t, t.traders[x].partner.value, moving);
        }
        CloseKeeps(t, c, moving);
        if x == c || t.traders[x].partner == Some(c) {
          FreeStaysFree(Close(t, c), players[1..], x);
        } else {
          CloseAllFrees(Close(t, c), players[1..], moving, x);
        }
      } else {
        CloseAllFrees(t, players[1..], moving, x);
      }
    }
  }

  /** An offer is made exactly if neither trades with another, and the player has not offered yet. */
  lemma OfferIsMade(t: Trades, p: nat, q: nat, item: nat)
    requires AtRest(t) && p in t.traders && q in t.traders && p != q && item !in t.items
    ensures var t' := StartTrade(t, p, q, item);
      if t.traders[p].partner in {None, Some(q)} && t.traders[q].partner in {None, Some(p)}
         && t.traders[p].item == None && t.traders[p].state != Accepted
      then
        && t'.items == t.items[item := p]
        && t'.traders[p] == Trader(Initiated, Some(q), Some(item))
        && t'.traders[q] == (if t.traders[q].partner == None then Trader(Acknowledged, Some(p), None) else t.traders[q])
        && t'.traders.Keys == t.traders.Keys
        && forall x :: x in t.traders && x != p && x != q ==> t'.traders[x] == t.traders[x]
      else t' == t
  {
    assert TraderOk(t, p, {});
    assert TraderOk(t, q, {});
  }

  /** Who is free after an acceptance: the two partners, if the other has accepted before; and then, if the script
      allows the exchange, those who give up while items move. */
  predicate EndsFor(t: Trades, p: nat, v: Verdict, x: nat)
    requires x in t.traders && p in t.traders
  {
    var r := t.traders[p];
    && r.partner.Some? && r.state != Accepted && v.inSight
    && r.partner.value in t.traders && t.traders[r.partner.value].state == Accepted
    && (x == p || x == r.partner.value || (v.allowed && IsFreed(t, v.closers, x)))
  }

  lemma AcceptFrees(t: Trades, p: nat, v: Verdict, x: nat)
    requires AtRest(t) && p in t.traders && x in t.traders
    ensures AcceptTrade(t, p, v).traders.Keys == t.traders.Keys
    ensures EndsFor(t, p, v, x) ==> AcceptTrade(t, p, v).traders[x] == NOT_TRADING
    ensures !EndsFor(t, p, v, x) ==> AcceptTrade(t, p, v).traders[x].item == t.traders[x].item
    ensures !EndsFor(t, p, v, x) && x != p ==> AcceptTrade(t, p, v).traders[x] == t.traders[x]
  {
    assert TraderOk(t, p, {});
    assert TraderOk(t, x, {});
    var from := AcceptsFrom(t, p, v);
    if from.Some? && t.traders[from.value].state == Accepted && v.allowed {
      var q := from.value;
      var accepted := t.(traders := t.traders[p := t.traders[p].(state := Accepted)]);
      AcceptedKeeps(t, p, q);
      BeginKeeps(accepted, p, q);
      if x != p && x != q {
        CloseAllFrees(Begin(accepted, p, q), v.closers, {p, q}, x);
      }
    }
  }

  /** What an acceptance comes to. Only a player with a trade not accepted yet, in sight of the partner, can accept.
      Before the partner has, it is noted and nothing else; after, the trade is over for both, whatever comes of it. */
  lemma AcceptDecides(t: Trades, p: nat, v: Verdict)
    requires AtRest(t) && p in t.traders
    ensures var r, t' := t.traders[p], AcceptTrade(t, p, v);
      var may := r.partner.Some? && r.state != Accepted && v.inSight;
      && (!may ==> t' == t)
      && (may ==> r.partner.value in t.traders)
      && (may && t.traders[r.partner.value].state != Accepted ==>
            t' == t.(traders := t.traders[p := r.(state := Accepted)]))
      && (may && t.traders[r.partner.value].state == Accepted ==> EndsFor(t, p, v, p))
  {
    assert TraderOk(t, p, {});
  }

  /** When it is over, exactly those it ends for are free, and exactly their items are off the ledger. */
  lemma AcceptEnds(t: Trades, p: nat, v: Verdict)
    requires AtRest(t) && p in t.traders && EndsFor(t, p, v, p)
    ensures var t' := AcceptTrade(t, p, v);
      && (forall x :: x in t.traders ==>
            x in t'.traders && t'.traders[x] == if EndsFor(t, p, v, x) then NOT_TRADING else t.traders[x])
      && (forall x :: x in t'.items <==> x in t.items && t.items[x] in t.traders && !EndsFor(t, p, v, t.items[x]))
      && (forall x :: x in t'.items ==> t'.items[x] == t.items[x])
  {
    var t' := AcceptTrade(t, p, v);
    AcceptKeeps(t, p, v);
    forall x | x in t.traders
      ensures x in t'.traders && t'.traders[x].item == if EndsFor(t, p, v, x) then None else t.traders[x].item
      ensures t'.traders[x] == if EndsFor(t, p, v, x) then NOT_TRADING else t.traders[x]
    {
      AcceptFrees(t, p, v, x);
    }
    forall x
      ensures x in t'.items <==> x in t.items && t.items[x] in t.traders && !EndsFor(t, p, v, t.items[x])
      ensures x in t'.items ==> t'.items[x] == t.items[x]
    {
      LedgerChanges(t, p, v, x, t');
    }
  }

  lemma LedgerChanges(t: Trades, p: nat, v: Verdict, x: nat, t': Trades)
    requires AtRest(t) && AtRest(t') && p in t.traders && t'.traders.Keys == t.traders.Keys
    requires forall y :: y in t.traders ==>
      t'.traders[y].item == if EndsFor(t, p, v, y) then None else t.traders[y].item
    ensures x in t'.items <==> x in t.items && t.items[x] in t.traders && !EndsFor(t, p, v, t.items[x])
    ensures x in t'.items ==> t'.items[x] == t.items[x]
  {
    if x in t.items {
      assert EntryOk(t, x, {});
      assert TraderOk(t', t.items[x], {});
    }
    if x in t'.items {
      assert EntryOk(t', x, {});
      assert TraderOk(t, t'.items[x], {});
    }
  }

  // ---- players and game

  class Player {
    const id: nat
    var tradeState: TradeState
    var tradePartner: Player?
    var tradeItem: Option<nat>

    constructor (id: nat)
      ensures this.id == id && tradeState == Idle && tradePartner == null && tradeItem == None
    {
      this.id, tradeState, tradePartner, tradeItem := id, Idle, null, None;
    }

    /** What the player knows of a trade. */
    function Part(): Trader
      reads this
    {
      Trader(tradeState, if tradePartner == null then None else Some(tradePartner.id), tradeItem)
    }
  }

  class Game {
    var players: map<nat, Player>
    var tradeItems: map<nat, nat>

    constructor ()
      ensures Valid() && AtRest(View()) && players == map[]
    {
      players, tradeItems := map[], map[];
    }

    /** Players are found by their numbers. */
    ghost predicate Valid()
      reads this, players.Values
    {
      && (forall p {:trigger players[p]} :: p in players ==> players[p].id == p)
      && (forall p {:trigger players[p]} :: p in players && players[p].tradePartner != null ==>
          players[p].tradePartner.id in players && players[players[p].tradePartner.id] == players[p].tradePartner)
    }

    ghost function View(): Trades
      reads this, players.Values
    {
      Trades(map p | p in players :: players[p].Part(), tradeItems)
    }

    predicate Knows(player: Player)
      reads this`players
    {
      player.id in players && players[player.id] == player
    }

    /** Sets a player's part in a trade. */
    method SetTrade(player: Player, state: TradeState, partner: Player?, item: Option<nat>)
      requires Valid() && Knows(player) && (partner != null ==> Knows(partner))
      modifies player
      ensures Valid()
      ensures View() == old(View()).(traders := old(View()).traders[player.id := Trader(state,
        if partner == null then None else Some(partner.id), item)])
    {
      player.tradeState, player.tradePartner, player.tradeItem := state, partner, item;
    }

    /** Takes an item off the ledger, if it is on it. */
    method Release(item: Option<nat>)
      requires Valid()
      modifies this`tradeItems
      ensures Valid() && View() == old(View()).(items := Without(old(View()).items, item))
    {
      if item.Some? && item.value in tradeItems {
        tradeItems := tradeItems - {item.value};
      }
    }

    /** Puts an item on the ledger. */
    method Enter(item: nat, player: Player)
      requires Valid()
      modifies this`tradeItems
      ensures Valid() && View() == old(View()).(items := old(View()).items[item := player.id])
    {
      tradeItems := tradeItems[item := player.id];
    }

    method InternalStartTrade(player: Player, tradePartner: Player, tradeItem: nat) returns (started: bool)
      requires Valid() && Knows(player) && Knows(tradePartner) && player != tradePartner
      modifies this`tradeItems, player, tradePartner
      ensures Valid() && View() == StartTrade(old(View()), player.id, tradePartner.id, tradeItem)
      ensures started <==> StartsNow(old(View()), player.id, tradePartner.id)
      ensures if started then
                && tradeItem in View().items && View().items[tradeItem] == player.id
                && View().traders[player.id].item == Some(tradeItem)
              else View() == old(View())
    {
      if player.tradeState != Idle && !(player.tradeState == Acknowledged && player.tradePartner == tradePartner) {
        return false;
      } else if tradePartner.tradeState != Idle && tradePartner.tradePartner != player {
        return false;
      }
      SetTrade(player, Initiated, tradePartner, Some(tradeItem));
      Enter(tradeItem, player);
      if tradePartner.tradeState == Idle {
        SetTrade(tradePartner, Acknowledged, player, tradePartner.tradeItem);
      }
      started := true;
    }

    method InternalCloseTrade(player: Player)
      requires Valid() && Knows(player)
      modifies this`tradeItems, player, player.tradePartner
      ensures Valid() && View() == Close(old(View()), player.id)
    {
      var tradePartner := player.tradePartner;
      if (tradePartner != null && tradePartner.tradeState == Transferring) || player.tradeState == Transferring {
        return;
      }
      Release(player.tradeItem);
      SetTrade(player, Idle, null, None);
      if tradePartner != null {
        Release(tradePartner.tradeItem);
        SetTrade(tradePartner, Idle, null, None);
      }
    }

    /** A request: both players have to be there, and the item must not be on the ledger; what else it takes is
        for willing to say. */
    method PlayerRequestTrade(playerId: nat, tradePlayerId: nat, tradeItem: nat, willing: bool)
      requires Valid()
      modifies this`tradeItems, players.Values
      ensures Valid() && View() == Take(old(View()), Request(playerId, tradePlayerId, tradeItem, willing))
    {
      if playerId !in players || tradePlayerId !in players {
        return;
      }
      var player, tradePartner := players[playerId], players[tradePlayerId];
      if tradePartner == player || tradeItem in tradeItems || !willing {
        return;
      }
      var _ := InternalStartTrade(player, tradePartner, tradeItem);
    }

    method PlayerCloseTrade(playerId: nat)
      requires Valid()
      modifies this`tradeItems, players.Values
      ensures Valid() && View() == Take(old(View()), GiveUp(playerId))
    {
      if playerId in players {
        InternalCloseTrade(players[playerId]);
      }
    }

    /** Moves the items, if both can be added and removed; meanwhile others may give up their trades. */
    method Transfer(tradeItem1: Option<nat>, tradeItem2: Option<nat>, v: Verdict) returns (exchanged: Exchanged)
      requires Valid()
      modifies this`tradeItems, players.Values
      ensures Valid() && View() == CloseAll(old(View()), v.closers)
      ensures exchanged == Swap(tradeItem1, tradeItem2, v)
    {
      exchanged := NOTHING;
      // adding no item fails
      var added := tradeItem1.Some? && tradeItem2.Some? && v.addable;
      if added && v.removable {
        if v.movesOwn {
          exchanged := exchanged.(given := tradeItem1);
          if v.movesOther {
            exchanged := exchanged.(got := tradeItem2);
          }
          exchanged := exchanged.(success := true);
        }
      }
      var i := 0;
      assert v.closers[0..] == v.closers;
      while i < |v.closers|
        invariant 0 <= i <= |v.closers| && Valid()
        invariant CloseAll(View(), v.closers[i..]) == CloseAll(old(View()), v.closers)
      {
        var c := v.closers[i];
        assert v.closers[i..][1..] == v.closers[i+1..];
        PlayerCloseTrade(c);
        i := i + 1;
      }
    }

    /** Both are in the exchange, and their items leave the ledger. */
    method BeginExchange(player: Player, tradePartner: Player)
      requires Valid() && Knows(player) && Knows(tradePartner) && player != tradePartner
      requires player.tradePartner == tradePartner && tradePartner.tradePartner == player
      modifies this`tradeItems, player, tradePartner
      ensures Valid() && View() == Begin(old(View()), player.id, tradePartner.id)
    {
      assert View().traders[player.id] == player.Part() && View().traders[tradePartner.id] == tradePartner.Part();
      SetTrade(player, Transferring, tradePartner, player.tradeItem);
      SetTrade(tradePartner, Transferring, player, tradePartner.tradeItem);
      Release(player.tradeItem);
      Release(tradePartner.tradeItem);
    }

    /** Both partners have accepted: unless the script forbids it, their items are exchanged. */
    method Conclude(player: Player, tradePartner: Player, v: Verdict) returns (exchanged: Exchanged)
      requires Valid() && Knows(player) && Knows(tradePartner) && player != tradePartner
      requires player.tradePartner == tradePartner && tradePartner.tradePartner == player
      modifies this`tradeItems, players.Values
      ensures Valid()
      ensures View() == if !v.allowed then Close(old(View()), player.id)
        else Finish(CloseAll(Begin(old(View()), player.id, tradePartner.id), v.closers), player.id, tradePartner.id)
      ensures exchanged == if v.allowed then Swap(old(player.tradeItem), old(tradePartner.tradeItem), v) else NOTHING
    {
      if !v.allowed {
        InternalCloseTrade(player);
        return NOTHING;
      }
      var tradeItem1, tradeItem2 := player.tradeItem, tradePartner.tradeItem;
      BeginExchange(player, tradePartner);
      exchanged := Transfer(tradeItem1, tradeItem2, v);
      SetTrade(player, Idle, null, None);
      SetTrade(tradePartner, Idle, null, None);
    }

    method PlayerAcceptTrade(playerId: nat, v: Verdict) returns (exchanged: Exchanged)
      requires Valid() && AtRest(View())
      modifies this`tradeItems, players.Values
      ensures Valid() && View() == Take(old(View()), Accept(playerId, v))
      ensures exchanged == if playerId in players then Exchange(old(View()), playerId, v) else NOTHING
    {
      exchanged := NOTHING;
      if playerId !in players {
        return;
      }
      var player := players[playerId];
      var tradePartner := player.tradePartner;
      if (player.tradeState != Acknowledged && player.tradeState != Initiated) || tradePartner == null || !v.inSight {
        return;
      }
      RestMeans(View());
      assert View().traders[playerId] == player.Part() && View().traders[tradePartner.id] == tradePartner.Part();
      SetTrade(player, Accepted, tradePartner, player.tradeItem);
      if tradePartner.tradeState == Accepted {
        exchanged := Conclude(player, tradePartner, v);
      }
    }
  }

  predicate StartsNow(t: Trades, p: nat, q: nat)
    requires p in t.traders && q in t.traders
  {
    && (t.traders[p].state == Idle || (t.traders[p].state == Acknowledged && t.traders[p].partner == Some(q)))
    && (t.traders[q].state == Idle || t.traders[q].partner == Some(p))
  }
}
