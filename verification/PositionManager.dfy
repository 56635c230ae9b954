/** Tracked positions and their stop-loss, take-profit and trailing-stop triggers, over
    exact prices. */
module PositionManager {
  import opened Wrappers

  type Price = real
  type PositionId = int
  type PerpId = int

  datatype TriggerType = StopLoss | TakeProfit | TrailingStop

  datatype TriggerAction =
    TriggerAction(triggerType: TriggerType, positionId: PositionId, perpId: PerpId, triggerPrice: Price)

  datatype ManagedPosition = ManagedPosition(
    perpId: PerpId,
    positionId: PositionId,
    isLong: bool,
    entryPrice: Price,
    margin: real,
    stopLoss: Option<Price>,
    takeProfit: Option<Price>,
    trailingStopPct: Option<real>,
    trailingStopAnchor: Option<Price>)
  {
    function UpdateAnchor(currentPrice: Price): ManagedPosition {
      if trailingStopPct.None? then this
      else match trailingStopAnchor
        case None => this.(trailingStopAnchor := Some(currentPrice))
        case Some(anchor) =>
          var shouldUpdate := if isLong then currentPrice > anchor else currentPrice < anchor;
          if shouldUpdate then this.(trailingStopAnchor := Some(currentPrice)) else this
    }

    function TrailingStopPrice(): Option<Price> {
      if trailingStopPct.None? || trailingStopAnchor.None? then None
      else if isLong then Some(trailingStopAnchor.value * (1.0 - trailingStopPct.value))
      else Some(trailingStopAnchor.value * (1.0 + trailingStopPct.value))
    }

    function Action(triggerType: TriggerType, price: Price): Option<TriggerAction> {
      Some(TriggerAction(triggerType, positionId, perpId, price))
    }

    function Check(currentPrice: Price): Option<TriggerAction> {
      if stopLoss.Some? && (if isLong then currentPrice <= stopLoss.value else currentPrice >= stopLoss.value) then
        Action(StopLoss, stopLoss.value)
      else if takeProfit.Some?
              && (if isLong then currentPrice >= takeProfit.value else currentPrice <= takeProfit.value) then
        Action(TakeProfit, takeProfit.value)
      else
        match TrailingStopPrice()
        case None => None
        case Some(stop) =>
          if (if isLong then currentPrice <= stop else currentPrice >= stop) then Action(TrailingStop, stop) else None
    }
  }

  // ── One position over its whole price history ──────────────────────────

  /** The position after the prices, in order. */
  function Observe(position: ManagedPosition, prices: seq<Price>): ManagedPosition {
    if prices == [] then position
    else Observe(position, prices[..|prices| - 1]).UpdateAnchor(prices[|prices| - 1])
  }

  /** The prices a trailing stop looks back on: its seed, if it was given one, and every
      price seen. */
  function LookedAt(position: ManagedPosition, prices: seq<Price>): seq<Price> {
    (if position.trailingStopAnchor.Some? then [position.trailingStopAnchor.value] else []) + prices
  }

  /** `p` is no worse for the holder than `q`. */
  predicate NoWorse(isLong: bool, p: Price, q: Price) {
    if isLong then p >= q else p <= q
  }

  predicate IsBest(isLong: bool, p: Price, prices: seq<Price>) {
    p in prices && forall q :: q in prices ==> NoWorse(isLong, p, q)
  }

  lemma {:induction false} BestGrows(isLong: bool, p: Price, prices: seq<Price>, q: Price)
    requires IsBest(isLong, p, prices)
    ensures IsBest(isLong, if NoWorse(isLong, p, q) then p else q, prices + [q])
  {
  }

  /** Over any history the anchor is the highest price of a long and the lowest of a
      short, the seed included; nothing else of the position moves. */
  lemma {:induction false} AnchorIsTheExtreme(position: ManagedPosition, prices: seq<Price>)
    ensures var after := Observe(position, prices);
            && after == position.(trailingStopAnchor := after.trailingStopAnchor)
            && (position.trailingStopPct.None? ==> after == position)
            && (position.trailingStopPct.Some? ==>
                  && (after.trailingStopAnchor.None? <==> LookedAt(position, prices) == [])
                  && (after.trailingStopAnchor.Some? ==>
                        IsBest(position.isLong, after.trailingStopAnchor.value, LookedAt(position, prices))))
    decreases |prices|
  {
    if prices != [] {
      var front, last := prices[..|prices| - 1], prices[|prices| - 1];
      AnchorIsTheExtreme(position, front);
      assert LookedAt(position, prices) == LookedAt(position, front) + [last];
      var before := Observe(position, front);
      if position.trailingStopPct.Some? && before.trailingStopAnchor.Some? {
        BestGrows(position.isLong, before.trailingStopAnchor.value, LookedAt(position, front), last);
      }
    }
  }

  // ── Precedence ─────────────────────────────────────────────────────────

  predicate StopLossHit(position: ManagedPosition, price: Price) {
    position.stopLoss.Some? && NoWorse(position.isLong, position.stopLoss.value, price)
  }

  predicate TakeProfitHit(position: ManagedPosition, price: Price) {
    position.takeProfit.Some? && NoWorse(position.isLong, price, position.takeProfit.value)
  }

  /** The stop set off from the best price looked at. */
  function StopFrom(isLong: bool, best: Price, pct: real): Price {
    if isLong then best * (1.0 - pct) else best * (1.0 + pct)
  }

  /** The price an action reports is the level that was hit. */
  predicate AtItsLevel(action: TriggerAction, position: ManagedPosition, best: Price) {
    match action.triggerType
    case StopLoss => position.stopLoss == Some(action.triggerPrice)
    case TakeProfit => position.takeProfit == Some(action.triggerPrice)
    case TrailingStop =>
      position.trailingStopPct.Some?
      && action.triggerPrice == StopFrom(position.isLong, best, position.trailingStopPct.value)
  }

  /** One check, with the trailing stop set off from `best`. */
  lemma {:induction false} CheckFollowsPrecedence(position: ManagedPosition, price: Price, best: Price)
    requires position.trailingStopPct.Some? ==> position.trailingStopAnchor == Some(best)
    ensures var action := position.Check(price);
            && (action.Some? ==>
                  action.value.positionId == position.positionId && action.value.perpId == position.perpId)
            && (action.Some? && action.value.triggerType == StopLoss <==> StopLossHit(position, price))
            && (action.Some? && action.value.triggerType == TakeProfit <==>
                  TakeProfitHit(position, price) && !StopLossHit(position, price))
            && (action.Some? && action.value.triggerType == TrailingStop <==>
                  && !StopLossHit(position, price) && !TakeProfitHit(position, price)
                  && TrailingStopHit(position, price, best))
            && (action.Some? ==> AtItsLevel(action.value, position, best))
  {
  }

  predicate TrailingStopHit(position: ManagedPosition, price: Price, best: Price) {
    && position.trailingStopPct.Some?
    && NoWorse(position.isLong, StopFrom(position.isLong, best, position.trailingStopPct.value), price)
  }

  /** What a check reports after any history ending at `price`: the stop-loss whenever it
      is hit, else the take-profit whenever it is hit, else the trailing stop exactly when
      `price` has pulled back to the stop set off from the best price looked at. */
  lemma {:induction false} PrecedenceOverAHistory(position: ManagedPosition, earlier: seq<Price>, price: Price,
                                                  best: Price)
    requires IsBest(position.isLong, best, LookedAt(position, earlier + [price]))
    ensures var action := Observe(position, earlier + [price]).Check(price);
            && (action.Some? ==>
                  action.value.positionId == position.positionId && action.value.perpId == position.perpId)
            && (action.Some? && action.value.triggerType == StopLoss <==> StopLossHit(position, price))
            && (action.Some? && action.value.triggerType == TakeProfit <==>
                  TakeProfitHit(position, price) && !StopLossHit(position, price))
            && (action.Some? && action.value.triggerType == TrailingStop <==>
                  && !StopLossHit(position, price) && !TakeProfitHit(position, price)
                  && TrailingStopHit(position, price, best))
            && (action.Some? ==> AtItsLevel(action.value, position, best))
  {
    var after := AnchoredAtTheBest(position, earlier + [price], best);
    CheckFollowsPrecedence(after, price, best);
  }

  lemma {:induction false} AnchoredAtTheBest(position: ManagedPosition, prices: seq<Price>, best: Price)
    returns (after: ManagedPosition)
    requires IsBest(position.isLong, best, LookedAt(position, prices))
    ensures after == Observe(position, prices)
    ensures after == position.(trailingStopAnchor := after.trailingStopAnchor)
    ensures position.trailingStopPct.Some? ==> after.trailingStopAnchor == Some(best)
  {
    AnchorIsTheExtreme(position, prices);
    after := Observe(position, prices);
    if position.trailingStopPct.Some? {
      BestIsUnique(position.isLong, best, after.trailingStopAnchor.value, LookedAt(position, prices));
    }
  }

  lemma {:induction false} BestIsUnique(isLong: bool, p: Price, q: Price, prices: seq<Price>)
    requires IsBest(isLong, p, prices) && IsBest(isLong, q, prices)
    ensures p == q
  {
  }

  lemma {:induction false} SignOfAProduct(x: real, y: real)
    requires x > 0.0
    ensures x * y >= 0.0 <==> y >= 0.0
  {
    if y < 0.0 {
      assert x * y < 0.0;
    }
  }

  /** A price that moves the anchor moves the stop with it, never back, exactly when the
      percentage leaves the stop on the anchor's side of zero: at most 100% for a long,
      at least -100% for a short. */
  lemma {:induction false} TheStopOnlyTightens(position: ManagedPosition, price: Price)
    requires position.trailingStopPct.Some? && position.trailingStopAnchor.Some?
    requires price != position.trailingStopAnchor.value
    requires NoWorse(position.isLong, price, position.trailingStopAnchor.value)
    ensures var pct := position.trailingStopPct.value;
            NoWorse(position.isLong, position.UpdateAnchor(price).TrailingStopPrice().value,
                    position.TrailingStopPrice().value)
            <==> if position.isLong then pct <= 1.0 else pct >= -1.0
  {
    var anchor, pct := position.trailingStopAnchor.value, position.trailingStopPct.value;
    if position.isLong {
      SignOfAProduct(price - anchor, 1.0 - pct);
      assert (price - anchor) * (1.0 - pct) == price * (1.0 - pct) - anchor * (1.0 - pct);
    } else {
      SignOfAProduct(anchor - price, 1.0 + pct);
      assert (anchor - price) * (1.0 + pct) == anchor * (1.0 + pct) - price * (1.0 + pct);
    }
  }

  /** The input: a long trailing by 200%. Its anchor rises from 100 to 110 and its stop
      falls from -100 to -110. */
  lemma {:induction false} AStopLoosens(position: ManagedPosition)
    requires position.isLong && position.trailingStopPct == Some(2.0) && position.trailingStopAnchor == Some(100.0)
    ensures position.TrailingStopPrice() == Some(-100.0)
    ensures position.UpdateAnchor(110.0).TrailingStopPrice() == Some(-110.0)
  {
  }

  /** The trailing stop never fires on the price that sets its anchor, for a positive
      price and percentage. */
  lemma {:induction false} AnAnchorDoesNotFire(position: ManagedPosition, price: Price)
    requires position.trailingStopPct.Some? && position.trailingStopPct.value > 0.0 && price > 0.0
    requires position.UpdateAnchor(price).trailingStopAnchor == Some(price)
    ensures var action := position.UpdateAnchor(price).Check(price);
            action.None? || action.value.triggerType != TrailingStop
  {
    var pct := position.trailingStopPct.value;
    assert price * pct > 0.0;
    assert price * (1.0 - pct) == price - price * pct;
    assert price * (1.0 + pct) == price + price * pct;
  }

  // ── All positions ──────────────────────────────────────────────────────

  type Positions = map<PositionId, ManagedPosition>
  type Prices = map<PerpId, Price>

  predicate Keyed(positions: Positions) {
    forall id :: id in positions ==> positions[id].positionId == id
  }

  /** A position after one check: its market's price, if there is one, is seen. */
  function Seen(position: ManagedPosition, prices: Prices): ManagedPosition {
    if position.perpId in prices then position.UpdateAnchor(prices[position.perpId]) else position
  }

  function AllSeen(positions: Positions, prices: Prices): Positions {
    map id | id in positions :: Seen(positions[id], prices)
  }

  /** The best of a position's anchor, if it has one, and a price. */
  function BestOf(position: ManagedPosition, price: Price): Price {
    if position.trailingStopAnchor.Some? && NoWorse(position.isLong, position.trailingStopAnchor.value, price)
    then position.trailingStopAnchor.value else price
  }

  /** What a position reports at its market's price, from what the position was before:
      the first level hit, at that level, or nothing. */
  predicate IsReport(action: Option<TriggerAction>, position: ManagedPosition, price: Price) {
    var best := BestOf(position, price);
    if StopLossHit(position, price) then IsAction(action, StopLoss, position, best)
    else if TakeProfitHit(position, price) then IsAction(action, TakeProfit, position, best)
    else if TrailingStopHit(position, price, best) then IsAction(action, TrailingStop, position, best)
    else action == None
  }

  predicate IsAction(action: Option<TriggerAction>, kind: TriggerType, position: ManagedPosition, best: Price) {
    && action.Some? && action.value.triggerType == kind
    && action.value.positionId == position.positionId && action.value.perpId == position.perpId
    && AtItsLevel(action.value, position, best)
  }

  lemma {:induction false} ACheckIsTheReport(position: ManagedPosition, price: Price)
    ensures IsReport(position.UpdateAnchor(price).Check(price), position, price)
  {
    CheckFollowsPrecedence(position.UpdateAnchor(price), price, BestOf(position, price));
  }

  lemma {:induction false} OneReport(one: Option<TriggerAction>, other: Option<TriggerAction>,
                                     position: ManagedPosition, price: Price)
    requires IsReport(one, position, price) && IsReport(other, position, price)
    ensures one == other
  {
  }

  /** The position's market has a price, and at it `action` is the position's report. */
  predicate Fires(position: ManagedPosition, prices: Prices, action: TriggerAction) {
    position.perpId in prices && IsReport(Some(action), position, prices[position.perpId])
  }

  predicate IsSilent(position: ManagedPosition, prices: Prices) {
    position.perpId in prices ==> IsReport(None, position, prices[position.perpId])
  }

  predicate SomeActionOf(actions: seq<TriggerAction>, id: PositionId) {
    exists a :: a in actions && a.positionId == id
  }

  /** `actions` are what the positions of `ids` fire, each once, in whatever order. */
  predicate AreFiredBy(actions: seq<TriggerAction>, ids: set<PositionId>, positions: Positions, prices: Prices)
    requires ids <= positions.Keys
  {
    && (forall a :: a in actions ==> a.positionId in ids && Fires(positions[a.positionId], prices, a))
    && (forall id :: id in ids && !IsSilent(positions[id], prices) ==> SomeActionOf(actions, id))
    && (forall i, j :: 0 <= i < j < |actions| ==> actions[i].positionId != actions[j].positionId)
  }

  lemma {:induction false} OneMoreFires(actions: seq<TriggerAction>, ids: set<PositionId>, positions: Positions,
                                        prices: Prices, id: PositionId, action: Option<TriggerAction>)
    requires Keyed(positions) && ids <= positions.Keys && id in positions && id !in ids
    requires AreFiredBy(actions, ids, positions, prices)
    requires if positions[id].perpId in prices then IsReport(action, positions[id], prices[positions[id].perpId])
             else action == None
    ensures AreFiredBy(actions + if action.Some? then [action.value] else [], ids + {id}, positions, prices)
  {
    var more := actions + if action.Some? then [action.value] else [];
    forall other | other in ids + {id} && !IsSilent(positions[other], prices)
      ensures SomeActionOf(more, other)
    {
      if other != id {
        var a :| a in actions && a.positionId == other;
        assert a in more;
      } else {
        assert action.Some? && action.value in more;
      }
    }
  }

  /** Two iteration orders give the same actions. */
  lemma {:induction false} ActionsDoNotDependOnTheOrder(one: seq<TriggerAction>, other: seq<TriggerAction>,
                                                        positions: Positions, prices: Prices)
    requires AreFiredBy(one, positions.Keys, positions, prices)
    requires AreFiredBy(other, positions.Keys, positions, prices)
    ensures multiset(one) == multiset(other)
  {
    forall a
      ensures multiset(one)[a] == multiset(other)[a]
    {
      FiredOnce(one, positions.Keys, positions, prices, a);
      FiredOnce(other, positions.Keys, positions, prices, a);
    }
  }

  lemma {:induction false} FiredOnce(actions: seq<TriggerAction>, ids: set<PositionId>, positions: Positions,
                                     prices: Prices, a: TriggerAction)
    requires ids <= positions.Keys && AreFiredBy(actions, ids, positions, prices)
    ensures multiset(actions)[a]
            == if a.positionId in ids && Fires(positions[a.positionId], prices, a) then 1 else 0
  {
    if a in actions {
      DistinctIds(actions, a);
    } else {
      assert a !in multiset(actions);
      if a.positionId in ids && Fires(positions[a.positionId], prices, a) {
        var position := positions[a.positionId];
        if IsSilent(position, prices) {
          OneReport(None, Some(a), position, prices[position.perpId]);
        } else {
          assert SomeActionOf(actions, a.positionId);
          var b :| b in actions && b.positionId == a.positionId;
          OneReport(Some(b), Some(a), position, prices[position.perpId]);
        }
        assert false;
      }
    }
  }

  lemma {:induction false} DistinctIds(actions: seq<TriggerAction>, a: TriggerAction)
    requires forall i, j :: 0 <= i < j < |actions| ==> actions[i].positionId != actions[j].positionId
    requires a in actions
    ensures multiset(actions)[a] == 1
    decreases |actions|
  {
    var first, rest := actions[0], actions[1..];
    assert actions == [first] + rest;
    if first == a {
      assert a !in rest;
      assert a !in multiset(rest);
    } else {
      DistinctIds(rest, a);
    }
  }

  // ── A run of checks ────────────────────────────────────────────────────

  /** The positions after checks against each of `batches`. */
  function AfterChecks(positions: Positions, batches: seq<Prices>): Positions {
    if batches == [] then positions
    else AllSeen(AfterChecks(positions, batches[..|batches| - 1]), batches[|batches| - 1])
  }

  /** The prices of one market among the batches. */
  function PricesOf(perpId: PerpId, batches: seq<Prices>): seq<Price> {
    if batches == [] then []
    else PricesOf(perpId, batches[..|batches| - 1])
         + if perpId in batches[|batches| - 1] then [batches[|batches| - 1][perpId]] else []
  }

  /** Through any run of checks a position sees its own market's prices, all of them, and
      no other: with `AnchorIsTheExtreme`, its anchor is the extreme of those. */
  lemma {:induction false} ChecksShowOwnPrices(positions: Positions, batches: seq<Prices>, id: PositionId)
    requires id in positions
    ensures id in AfterChecks(positions, batches)
    ensures AfterChecks(positions, batches)[id] == Observe(positions[id], PricesOf(positions[id].perpId, batches))
    decreases |batches|
  {
    if batches != [] {
      var front, last := batches[..|batches| - 1], batches[|batches| - 1];
      ChecksShowOwnPrices(positions, front, id);
      var earlier := PricesOf(positions[id].perpId, front);
      AnchorIsTheExtreme(positions[id], earlier);
      var perpId := positions[id].perpId;
      if perpId in last {
        assert (earlier + [last[perpId]])[..|earlier|] == earlier;
      } else {
        assert PricesOf(perpId, batches) == earlier;
      }
    }
  }

  // ── The manager ────────────────────────────────────────────────────────

  class Manager {
    var positions: Positions

    ghost predicate Valid()
      reads this
    {
      Keyed(positions)
    }

    constructor ()
      ensures Valid() && positions == map[]
    {
      positions := map[];
    }

    method Track(position: ManagedPosition)
      requires Valid()
      modifies this
      ensures Valid() && positions == old(positions)[position.positionId := position]
    {
      positions := positions[position.positionId := position];
    }

    method Untrack(positionId: PositionId) returns (tracked: bool)
      requires Valid()
      modifies this
      ensures Valid() && positions == old(positions) - {positionId}
      ensures tracked <==> positionId in old(positions)
    {
      tracked := positionId in positions;
      positions := positions - {positionId};
    }

    /** Every position sees its market's price, and what fires is appended, at most one
        action a position, in the order the map happens to be walked. */
    method CheckTriggersInto(prices: Prices, buffer: seq<TriggerAction>) returns (out: seq<TriggerAction>)
      requires Valid()
      modifies this
      ensures Valid() && positions == AllSeen(old(positions), prices)
      ensures |out| >= |buffer| && out[..|buffer|] == buffer
      ensures AreFiredBy(out[|buffer|..], old(positions).Keys, old(positions), prices)
    {
      var before := positions;
      var fired: seq<TriggerAction> := [];
      var left: set<PositionId> := positions.Keys;
      while exists id :: id in left
        invariant left <= before.Keys && positions.Keys == before.Keys
        invariant forall id :: id in before ==>
                    positions[id] == if id in left then before[id] else Seen(before[id], prices)
        invariant AreFiredBy(fired, before.Keys - left, before, prices)
        decreases left
      {
        var id :| id in left;
        var position := positions[id];
        var action: Option<TriggerAction> := None;
        if position.perpId in prices {
          var currentPrice := prices[position.perpId];
          ACheckIsTheReport(position, currentPrice);
          position := position.UpdateAnchor(currentPrice);
          positions := positions[id := position];
          action := position.Check(currentPrice);
        }
        OneMoreFires(fired, before.Keys - left, before, prices, id, action);
        if action.Some? {
          fired := fired + [action.value];
        }
        left := left - {id};
        assert before.Keys - left == (before.Keys - (left + {id})) + {id};
      }
      assert before.Keys - left == before.Keys;
      forall id | id in before
        ensures positions[id] == Seen(before[id], prices)
      {
        assert id !in left;
      }
      assert positions == AllSeen(before, prices);
      out := buffer + fired;
      assert out[|buffer|..] == fired;
    }

    method CheckTriggers(prices: Prices) returns (actions: seq<TriggerAction>)
      requires Valid()
      modifies this
      ensures Valid() && positions == AllSeen(old(positions), prices)
      ensures AreFiredBy(actions, old(positions).Keys, old(positions), prices)
    {
      actions := CheckTriggersInto(prices, []);
      assert actions[0..] == actions;
    }
  }
}
