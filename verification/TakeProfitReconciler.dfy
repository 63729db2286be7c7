/** The take-profit reconcile cycle: cancel orders without a position, adopt or place one order for each position, all
    within a budget (src/engine/take_profit_reconciler.cpp:336-601). */
module TakeProfitReconciler {
  import opened Common
  import opened TrackerSpec
  import opened SizingPolicy
  import PositionTracker
  import Ids = ClientOrderIds

  datatype Order = Order(
    orderId: int, symbol: string, clientOrderId: string, live: bool, limit: bool, reduceOnly: bool, side: Side,
    origQty: Option<real>, executedQty: Option<real>, updateTime: int, time: int)

  datatype Config = Config(enabled: bool, maxOrders: int, takeProfitPercent: real, graceSeconds: int, maxHold: int)

  datatype Meta = Meta(step: real, tick: real)

  // The clock as read at the start of a cycle, and again for the id with each sequence number.
  datatype Clock = Clock(nowMs: nat, idMs: nat -> nat)

  // What a cycle does not change: the settings, the exchange's symbol filters, the clock's readings, the symbol fingerprints.
  datatype Env = Env(config: Config, meta: string -> Option<Meta>, clock: Clock, hash: string -> nat)

  datatype Send =
    | Cancel(index: nat)
    | Place(index: nat, symbol: string, side: Side, quantity: real, price: real, sequence: nat, clientOrderId: string)

  datatype Reply = Refused | Accepted(orderId: int, clientOrderId: string)

  // ----- Orders -----

  function Remaining(o: Order): real {
    if o.origQty.None? || o.executedQty.None? then 0.0 else NonNegative(o.origQty.value - o.executedQty.value)
  }

  predicate Live(p: Position) { !Flat(p.positionAmt) }

  function CloseSide(p: Position): Side { if p.positionAmt > 0.0 then Sell else Buy }

  // A live reduce-only limit order that closes the position.
  predicate Closing(o: Order, p: Position) {
    o.symbol == p.symbol && o.live && o.limit && o.reduceOnly && o.side == CloseSide(p) && Remaining(o) > 0.0
  }

  predicate SelfOwned(o: Order) { "gtp_" <= o.clientOrderId }

  predicate Owned(o: Order, p: Position) { SelfOwned(o) || p.symbol + "_tp_" <= o.clientOrderId }

  ghost predicate Covered(orders: seq<Order>, p: Position) { exists o | o in orders :: Closing(o, p) }

  ghost predicate LiveSymbol(positions: seq<Position>, symbol: string) {
    exists p | p in positions :: Live(p) && p.symbol == symbol
  }

  // ----- Grace -----

  predicate Within(t: int, nowMs: nat, graceSeconds: int) { t >= nowMs || nowMs - t < graceSeconds * 1000 }

  ghost predicate TooFresh(o: Order, graceSeconds: int, nowMs: nat) {
    && graceSeconds > 0
    && if o.updateTime > 0 then Within(o.updateTime, nowMs, graceSeconds)
       else if o.time > 0 then Within(o.time, nowMs, graceSeconds)
       else exists t: nat :: Ids.Carries(o.clientOrderId, t) && t > 0 && Within(t, nowMs, graceSeconds)
  }

  method SkipsFresh(o: Order, graceSeconds: int, nowMs: nat) returns (skip: bool)
    ensures skip <==> TooFresh(o, graceSeconds, nowMs)
  {
    if graceSeconds <= 0 {
      return false;
    }
    var t := o.updateTime;
    if t <= 0 {
      t := o.time;
      if t <= 0 {
        var carried := Ids.OrderTimeMs(o.clientOrderId);
        t := if carried.Some? then carried.value else 0;
        forall u: nat, v: nat | Ids.Carries(o.clientOrderId, u) && Ids.Carries(o.clientOrderId, v)
          ensures u == v
        {
          Ids.CarriesOne(o.clientOrderId, u, v);
        }
      }
    }
    if t <= 0 {
      return false;
    }
    if t >= nowMs {
      return true;
    }
    var age := nowMs - t;
    return age < graceSeconds * 1000;
  }

  ghost predicate Cancellable(env: Env, positions: seq<Position>, o: Order) {
    SelfOwned(o) && !LiveSymbol(positions, o.symbol) && !TooFresh(o, env.config.graceSeconds, env.clock.nowMs)
  }

  // ----- Quotes -----

  function Positive(x: real): Option<real> { if x > 0.0 then Some(x) else None }

  // The price at which the position has gained the configured percentage of its margin.
  function TargetPrice(percent: real, p: Position): real
    requires p.leverage > 0
  {
    var distance := p.entryPrice * percent / (100.0 * p.leverage as real);
    if p.positionAmt > 0.0 then p.entryPrice + distance else p.entryPrice - distance
  }

  // Rounded to the tick on the entry's side of the target.
  function TickPrice(percent: real, p: Position, tick: real): Option<real>
    requires p.leverage > 0 && tick > 0.0
  {
    var target := TargetPrice(percent, p);
    if target <= 0.0 then None
    else Positive(if p.positionAmt > 0.0 then FloorTo(target, tick) else CeilingTo(target, tick))
  }

  function StepQuantity(p: Position, step: real): Option<real>
    requires step > 0.0
  {
    Positive(FloorTo(Abs(p.positionAmt), step))
  }

  /** At the target the position has gained exactly the configured percentage of its margin. */
  lemma TargetIsGain(percent: real, p: Position)
    requires p.leverage > 0 && p.entryPrice > 0.0
    ensures var gain := if p.positionAmt > 0.0 then TargetPrice(percent, p) - p.entryPrice else p.entryPrice - TargetPrice(percent, p);
            Times(Times(gain, p.leverage as real), 100.0) == Times(percent, p.entryPrice)
  {
    var leverage := p.leverage as real;
    var distance := p.entryPrice * percent / (100.0 * leverage);
    assert distance * (100.0 * leverage) == p.entryPrice * percent;
    Regrouped(distance, leverage);
  }

  lemma Regrouped(distance: real, leverage: real)
    ensures Times(Times(distance, leverage), 100.0) == distance * (100.0 * leverage)
  {}

  /** The placed price is the target moved by less than a tick, never past it. */
  lemma TickPriceNear(percent: real, p: Position, tick: real)
    requires p.leverage > 0 && tick > 0.0 && TickPrice(percent, p, tick).Some?
    ensures var price, target := TickPrice(percent, p, tick).value, TargetPrice(percent, p);
            price > 0.0 && if p.positionAmt > 0.0 then target - tick < price <= target else target <= price < target + tick
  {}

  /** A price exists unless rounding takes the target to zero; a quantity exists for one step or more. */
  lemma QuoteExists(percent: real, p: Position, tick: real, step: real)
    requires p.leverage > 0 && tick > 0.0 && step > 0.0
    ensures var target := TargetPrice(percent, p);
            TickPrice(percent, p, tick).Some? <==> if p.positionAmt > 0.0 then target >= tick else target > 0.0
    ensures StepQuantity(p, step).Some? <==> p.positionAmt >= step || p.positionAmt <= -step
  {
    RoundsToZero(TargetPrice(percent, p), tick);
    RoundsToZero(Abs(p.positionAmt), step);
  }

  predicate Usable(m: Option<Meta>) { m.Some? && m.value.step > 0.0 && m.value.tick > 0.0 }

  predicate Quotable(env: Env, p: Position) {
    && p.leverage > 0 && p.entryPrice > 0.0 && Usable(env.meta(p.symbol))
    && TickPrice(env.config.takeProfitPercent, p, env.meta(p.symbol).value.tick).Some?
    && StepQuantity(p, env.meta(p.symbol).value.step).Some?
    && Ids.Cleaned(p.symbol) != ""
  }

  predicate Held(m: Positions, symbol: string) { symbol in m && m[symbol].openingInFlight }

  // A live position nothing covers, which an order can be quoted for.
  ghost predicate Needs(env: Env, orders: seq<Order>, m: Positions, p: Position) {
    Live(p) && !Held(m, p.symbol) && !Covered(orders, p) && Quotable(env, p)
  }

  predicate IsPlacement(env: Env, send: Send, p: Position) {
    && send.Place? && Quotable(env, p)
    && send.symbol == p.symbol && send.side == CloseSide(p)
    && Some(send.quantity) == StepQuantity(p, env.meta(p.symbol).value.step)
    && Some(send.price) == TickPrice(env.config.takeProfitPercent, p, env.meta(p.symbol).value.tick)
    && send.clientOrderId == Ids.Id(p.symbol, env.hash(p.symbol), env.clock.idMs(send.sequence), send.sequence)
  }

  /** A filled placement takes the position towards zero, past it never, and leaves less than one step of it; quantity and price
      lie on the symbol's lattices. */
  lemma PlacementCloses(env: Env, send: Send, p: Position)
    requires Live(p) && IsPlacement(env, send, p)
    ensures var left := p.positionAmt + if send.side == Buy then send.quantity else -send.quantity;
            var step := env.meta(p.symbol).value.step;
            send.quantity > 0.0 && if p.positionAmt > 0.0 then 0.0 <= left < step else -step < left <= 0.0
    ensures OnLattice(send.quantity, env.meta(p.symbol).value.step) && OnLattice(send.price, env.meta(p.symbol).value.tick)
  {
    var meta, target := env.meta(p.symbol).value, TargetPrice(env.config.takeProfitPercent, p);
    RoundedOnLattice(Abs(p.positionAmt), meta.step);
    RoundedOnLattice(target, meta.tick);
  }

  // ----- One cycle -----

  function Budget(env: Env): nat { if env.config.maxOrders > 0 then env.config.maxOrders else 0 }

  // Some of the first n orders or positions, each at most once, in order.
  ghost predicate InOrder(sends: seq<Send>, n: nat) {
    && (forall i | 0 <= i < |sends| :: sends[i].index < n)
    && (forall i, j | 0 <= i < j < |sends| :: sends[i].index < sends[j].index)
  }

  ghost predicate Sends(sends: seq<Send>, k: nat) { exists i :: 0 <= i < |sends| && sends[i].index == k }

  ghost predicate Cancels(env: Env, positions: seq<Position>, orders: seq<Order>, cancels: seq<Send>, n: nat)
    requires n <= |orders|
  {
    && InOrder(cancels, n)
    && (forall i | 0 <= i < |cancels| :: cancels[i].Cancel? && Cancellable(env, positions, orders[cancels[i].index]))
  }

  // Which positions need an order.
  ghost function NeedList(env: Env, orders: seq<Order>, m: Positions, positions: seq<Position>): (needed: seq<bool>)
    ensures |needed| == |positions|
    ensures forall k | 0 <= k < |positions| :: needed[k] <==> Needs(env, orders, m, positions[k])
  {
    seq(|positions|, k requires 0 <= k < |positions| => Needs(env, orders, m, positions[k]))
  }

  // At most `room` of the first n needed places, in order; fewer only if none is left out.
  ghost predicate Picks(places: seq<Send>, needed: seq<bool>, n: nat, room: nat)
    requires n <= |needed|
  {
    && |places| <= room && InOrder(places, n)
    && (forall i | 0 <= i < |places| :: needed[places[i].index])
    && (|places| < room ==> forall k | 0 <= k < n && needed[k] :: Sends(places, k))
  }

  predicate PlacesOwn(env: Env, positions: seq<Position>, send: Send) {
    send.index < |positions| && IsPlacement(env, send, positions[send.index])
  }

  // Each placement quotes its own position, under its own number below `next`.
  ghost predicate Quoted(env: Env, positions: seq<Position>, places: seq<Send>, next: nat) {
    && (forall i | 0 <= i < |places| :: PlacesOwn(env, positions, places[i]))
    && (forall i, j | 0 <= i < j < |places| :: places[i].sequence < places[j].sequence)
    && (forall i | 0 <= i < |places| :: places[i].sequence < next)
  }

  // Stale orders are cancelled, then needed orders placed, in order, until nothing is left to do or the budget is spent.
  ghost predicate IsCycle(env: Env, positions: seq<Position>, orders: seq<Order>, m: Positions, cancels: seq<Send>, places: seq<Send>) {
    && |cancels| <= Budget(env)
    && Cancels(env, positions, orders, cancels, |orders|)
    && (|cancels| < Budget(env) ==> forall k | 0 <= k < |orders| && Cancellable(env, positions, orders[k]) :: Sends(cancels, k))
    && Picks(places, NeedList(env, orders, m, positions), |positions|, Budget(env) - |cancels|)
    && Quoted(env, positions, places, |positions|)
  }

  predicate DistinctSymbols(positions: seq<Position>) {
    forall i, j | 0 <= i < j < |positions| :: positions[i].symbol != positions[j].symbol
  }

  // The tracker's entry points at o, the owned order with the most left to fill.
  ghost predicate Adopted(orders: seq<Order>, m: Positions, p: Position, o: Order) {
    && o in orders && Closing(o, p) && Owned(o, p)
    && (forall other | other in orders && Closing(other, p) && Owned(other, p) :: Remaining(other) <= Remaining(o))
    && p.symbol in m
    && var t := m[p.symbol];
       && t.tpOrderId == o.orderId && t.tpClientOrderId == o.clientOrderId
       && t.quantity == Abs(p.positionAmt) && t.entryPrice == p.entryPrice && t.leverage == p.leverage
  }

  ghost predicate OwnedCoverage(orders: seq<Order>, p: Position) { exists o | o in orders :: Closing(o, p) && Owned(o, p) }

  // After a cycle the tracker knows the order of every position it adopted.
  ghost predicate AdoptsOwned(orders: seq<Order>, before: Positions, after: Positions, p: Position) {
    Live(p) && !Held(before, p.symbol) && p.leverage > 0 && p.symbol != "" && OwnedCoverage(orders, p) ==>
      exists o :: Adopted(orders, after, p, o)
  }

  ghost predicate KnowsPlaced(m: Positions, send: Send, reply: Reply) {
    send.Place? && reply.Accepted? ==>
      && send.symbol in m && m[send.symbol].tpOrderId == reply.orderId
      && m[send.symbol].tpClientOrderId == if reply.clientOrderId == "" then send.clientOrderId else reply.clientOrderId
  }

  // Entries being opened are the same before and after.
  ghost predicate LeavesHeld(before: Positions, after: Positions) {
    && (forall s :: Held(before, s) <==> Held(after, s))
    && (forall s | Held(before, s) :: after[s] == before[s])
  }

  method CancelStale(env: Env, positions: seq<Position>, orders: seq<Order>, room: nat) returns (cancels: seq<Send>)
    requires room == Budget(env)
    ensures |cancels| <= Budget(env) && Cancels(env, positions, orders, cancels, |orders|)
    ensures |cancels| < Budget(env) ==>
              forall k | 0 <= k < |orders| && Cancellable(env, positions, orders[k]) :: Sends(cancels, k)
  {
    var liveSymbols := {};
    for k := 0 to |positions|
      invariant forall s :: s in liveSymbols <==> LiveSymbol(positions[..k], s)
    {
      assert positions[..k + 1] == positions[..k] + [positions[k]];
      if !(Abs(positions[k].positionAmt) <= FLAT_EPSILON) {
        liveSymbols := liveSymbols + {positions[k].symbol};
      }
    }
    assert positions[..|positions|] == positions;
    cancels := [];
    for k := 0 to |orders|
      invariant |cancels| <= Budget(env) && Cancels(env, positions, orders, cancels, k)
      invariant forall q | 0 <= q < k && Cancellable(env, positions, orders[q]) :: Sends(cancels, q)
    {
      var o := orders[k];
      if !("gtp_" <= o.clientOrderId) || o.symbol in liveSymbols {
        continue;
      }
      var skip := SkipsFresh(o, env.config.graceSeconds, env.clock.nowMs);
      if skip {
        continue;
      }
      if |cancels| >= room {
        break;
      }
      SendsMore(cancels, Cancel(k));
      cancels := cancels + [Cancel(k)];
    }
  }

  lemma SendsMore(sends: seq<Send>, s: Send)
    ensures forall k :: Sends(sends + [s], k) <==> Sends(sends, k) || k == s.index
  {
    var more := sends + [s];
    assert more[|sends|] == s;
    forall k | Sends(sends, k)
      ensures Sends(more, k)
    {
      var i :| 0 <= i < |sends| && sends[i].index == k;
      assert more[i].index == k;
    }
  }

  method IsCandidate(o: Order, p: Position) returns (candidate: bool)
    ensures candidate <==> Closing(o, p)
  {
    var closeSide := if p.positionAmt > 0.0 then Sell else Buy;
    if o.symbol != p.symbol || !o.live || !o.limit || !o.reduceOnly || o.side != closeSide {
      return false;
    }
    if o.origQty.None? || o.executedQty.None? {
      return false;
    }
    return MaxReal(0.0, o.origQty.value - o.executedQty.value) > 0.0;
  }

  // The owned closing order with the most left, and whether another one closes the position.
  method FindCoverage(orders: seq<Order>, p: Position) returns (owned: Option<Order>, external: bool)
    ensures owned.Some? <==> OwnedCoverage(orders, p)
    ensures owned.Some? ==> owned.value in orders && Closing(owned.value, p) && Owned(owned.value, p)
    ensures owned.Some? ==> forall o | o in orders && Closing(o, p) && Owned(o, p) :: Remaining(o) <= Remaining(owned.value)
    ensures external <==> exists o | o in orders :: Closing(o, p) && !Owned(o, p)
  {
    owned, external := None, false;
    var best := -1.0;
    for k := 0 to |orders|
      invariant owned.Some? <==> OwnedCoverage(orders[..k], p)
      invariant owned.Some? ==> owned.value in orders[..k] && Closing(owned.value, p) && Owned(owned.value, p) && best == Remaining(owned.value)
      invariant owned.None? ==> best == -1.0
      invariant forall o | o in orders[..k] && Closing(o, p) && Owned(o, p) :: Remaining(o) <= best
      invariant external <==> exists o | o in orders[..k] :: Closing(o, p) && !Owned(o, p)
    {
      assert orders[..k + 1] == orders[..k] + [orders[k]];
      var o := orders[k];
      var candidate := IsCandidate(o, p);
      if candidate {
        if "gtp_" <= o.clientOrderId || p.symbol + "_tp_" <= o.clientOrderId {
          if Remaining(o) > best {
            owned, best := Some(o), Remaining(o);
          }
        } else {
          external := true;
        }
      }
    }
    assert orders[..|orders|] == orders;
  }

  // A position without an entry gets one as reported, stamped now.
  ghost predicate EnteredAsReported(env: Env, before: Positions, after: Positions, p: Position) {
    p.symbol !in before && p.symbol in after ==>
      && var t := after[p.symbol];
      && t.direction == (if p.positionAmt > 0.0 then Long else Short) && t.quantity == Abs(p.positionAmt)
      && t.entryPrice == p.entryPrice && t.leverage == p.leverage && t.slOrderId == 0 && t.recoveredFromSnapshot
      && t.maxHold == env.config.maxHold && t.openedAt == env.clock.nowMs
  }

  // Ready when the symbol has an entry that is not being opened, adding one if it has none.
  method EnsureReady(env: Env, p: Position, tracker: PositionTracker.Tracker) returns (ready: bool)
    requires Live(p)
    modifies tracker
    ensures EnteredAsReported(env, old(tracker.positions), tracker.positions, p)
    ensures ready <==> !Held(old(tracker.positions), p.symbol) && (p.symbol in old(tracker.positions) || p.symbol != "")
    ensures ready ==> Updatable(tracker.positions, p.symbol)
    ensures LeavesHeld(old(tracker.positions), tracker.positions)
    ensures tracker.positions - {p.symbol} == old(tracker.positions) - {p.symbol}
  {
    if p.symbol in tracker.positions {
      return !tracker.positions[p.symbol].openingInFlight;
    }
    ready := tracker.AddRecovered(Recovered(p, env.clock.nowMs, env.config.maxHold), env.clock.nowMs);
  }

  // Sends the take-profit of a position nothing covers, if it can be quoted.
  method PlaceFor(env: Env, p: Position, index: nat, sequence: nat, reply: Reply, tracker: PositionTracker.Tracker)
    returns (send: Option<Send>, nextSequence: nat)
    requires env.config.takeProfitPercent > 0.0 && env.clock.idMs(sequence) <= Ids.MAX_INT64
    requires env.hash(p.symbol) < 0x1_0000_0000 && sequence < 0x1_0000_0000
    requires Live(p) && p.leverage > 0 && !Held(tracker.positions, p.symbol)
    modifies tracker
    ensures EnteredAsReported(env, old(tracker.positions), tracker.positions, p)
    ensures send.Some? <==> Quotable(env, p)
    ensures send.Some? ==> IsPlacement(env, send.value, p) && send.value.index == index && send.value.sequence == sequence
    ensures send.Some? ==> KnowsPlaced(tracker.positions, send.value, reply)
    ensures nextSequence == sequence || nextSequence == sequence + 1
    ensures send.Some? ==> nextSequence == sequence + 1
    ensures LeavesHeld(old(tracker.positions), tracker.positions)
    ensures tracker.positions - {p.symbol} == old(tracker.positions) - {p.symbol}
  {
    send, nextSequence := None, sequence;
    var meta := env.meta(p.symbol);
    if meta.None? || meta.value.step <= 0.0 || meta.value.tick <= 0.0 || p.entryPrice <= 0.0 {
      return;
    }
    DistancePositive(p.entryPrice, env.config.takeProfitPercent, p.leverage);
    var price := TickPrice(env.config.takeProfitPercent, p, meta.value.tick);
    if price.None? {
      return;
    }
    var quantity := StepQuantity(p, meta.value.step);
    if quantity.None? {
      return;
    }
    var id := Ids.MakeId(p.symbol, env.hash(p.symbol), env.clock.idMs(sequence), sequence);
    nextSequence := sequence + 1;
    if id.None? {
      return;
    }
    var ready := EnsureReady(env, p, tracker);
    if !ready {
      return;
    }
    send := Some(Place(index, p.symbol, if p.positionAmt > 0.0 then Sell else Buy, quantity.value, price.value, sequence, id.value));
    if reply.Refused? {
      return;
    }
    var updated := tracker.UpdateTakeProfit(p.symbol, reply.orderId,
                                            if reply.clientOrderId == "" then id.value else reply.clientOrderId);
  }

  /** One position: a placement goes out exactly when the position needs one and the budget allows it; an owned order is
      adopted; no other entry of the tracker changes. */
  method Visit(env: Env, orders: seq<Order>, p: Position, index: nat, sequence: nat, canSend: bool, reply: Reply,
               tracker: PositionTracker.Tracker)
    returns (send: Option<Send>, nextSequence: nat)
    requires env.config.takeProfitPercent > 0.0 && env.clock.idMs(sequence) <= Ids.MAX_INT64
    requires env.hash(p.symbol) < 0x1_0000_0000 && sequence < 0x1_0000_0000
    modifies tracker
    ensures send.Some? <==> canSend && Needs(env, orders, old(tracker.positions), p)
    ensures send.Some? ==> IsPlacement(env, send.value, p) && send.value.index == index && send.value.sequence == sequence
    ensures send.Some? ==> KnowsPlaced(tracker.positions, send.value, reply)
    ensures nextSequence == sequence || nextSequence == sequence + 1
    ensures send.Some? ==> nextSequence == sequence + 1
    ensures LeavesHeld(old(tracker.positions), tracker.positions)
    ensures tracker.positions - {p.symbol} == old(tracker.positions) - {p.symbol}
    ensures AdoptsOwned(orders, old(tracker.positions), tracker.positions, p)
    ensures EnteredAsReported(env, old(tracker.positions), tracker.positions, p)
  {
    send, nextSequence := None, sequence;
    if Abs(p.positionAmt) <= FLAT_EPSILON {
      return;
    }
    if p.symbol in tracker.positions && tracker.positions[p.symbol].openingInFlight {
      return;
    }
    if p.leverage <= 0 {
      return;
    }
    var owned, external := FindCoverage(orders, p);
    if owned.Some? {
      var ready := EnsureReady(env, p, tracker);
      if !ready {
        return;
      }
      var refreshed := tracker.RefreshFromSnapshot(p.symbol, p.entryPrice, Abs(p.positionAmt), p.leverage);
      var updated := tracker.UpdateTakeProfit(p.symbol, owned.value.orderId, owned.value.clientOrderId);
      assert Adopted(orders, tracker.positions, p, owned.value);
      return;
    }
    if external {
      return;
    }
    if !canSend {
      return;
    }
    send, nextSequence := PlaceFor(env, p, index, sequence, reply, tracker);
  }

  // The source's own check of the distance never fails once leverage, entry and percentage are positive.
  lemma DistancePositive(entryPrice: real, percent: real, leverage: int)
    requires entryPrice > 0.0 && percent > 0.0 && leverage > 0
    ensures entryPrice * percent / (100.0 * leverage as real) > 0.0
  {
    assert entryPrice * percent > 0.0 && 100.0 * leverage as real > 0.0;
  }

  predicate Runs(config: Config) { config.enabled && config.takeProfitPercent > 0.0 }

  // Places what the positions need, with room for so many orders.
  method PlaceMissing(env: Env, positions: seq<Position>, orders: seq<Order>, room: nat, reply: nat -> Reply,
                      tracker: PositionTracker.Tracker)
    returns (places: seq<Send>)
    requires Runs(env.config) && (forall n :: env.clock.idMs(n) <= Ids.MAX_INT64) && |positions| < 0x1_0000_0000
    requires forall p | p in positions :: env.hash(p.symbol) < 0x1_0000_0000
    modifies tracker
    ensures Picks(places, NeedList(env, orders, old(tracker.positions), positions), |positions|, room)
    ensures Quoted(env, positions, places, |positions|)
    ensures TrackedSoFar(positions, orders, old(tracker.positions), tracker.positions, places, reply, |positions|)
  {
    places := [];
    ghost var m := tracker.positions;
    ghost var needed := NeedList(env, orders, m, positions);
    var sequence: nat := 0;
    for k := 0 to |positions|
      invariant sequence <= k
      invariant Picks(places, needed, k, room)
      invariant Quoted(env, positions, places, sequence)
      invariant TrackedSoFar(positions, orders, m, tracker.positions, places, reply, k)
    {
      ghost var middle, before := tracker.positions, sequence;
      assert positions[k] in positions;
      var send;
      send, sequence := Visit(env, orders, positions[k], k, sequence, |places| < room, reply(|places|), tracker);
      StillNeeds(env, orders, m, middle, positions[k]);
      PlacedOwnSymbols(env, positions, places, before, k);
      TrackedStep(positions, orders, m, middle, tracker.positions, places, reply, k, send);
      PicksStep(places, needed, k, room, send);
      QuotedStep(env, positions, places, before, send, sequence);
      if send.Some? {
        places := places + [send.value];
      }
    }
  }

  /** The whole cycle; nothing happens when it is off or the open orders cannot be read. `reply` gives the exchange's answer to the
      i-th placement. */
  method ReconcileOnce(env: Env, positions: seq<Position>, openOrders: Option<seq<Order>>, reply: nat -> Reply,
                       tracker: PositionTracker.Tracker)
    returns (cancels: seq<Send>, places: seq<Send>)
    requires (forall n :: env.clock.idMs(n) <= Ids.MAX_INT64) && |positions| < 0x1_0000_0000
    requires forall p | p in positions :: env.hash(p.symbol) < 0x1_0000_0000
    modifies tracker
    ensures Runs(env.config) && openOrders.Some? ==>
              && IsCycle(env, positions, openOrders.value, old(tracker.positions), cancels, places)
              && TrackedSoFar(positions, openOrders.value, old(tracker.positions), tracker.positions, places, reply, |positions|)
    ensures !Runs(env.config) || openOrders.None? ==> cancels == places == [] && tracker.positions == old(tracker.positions)
  {
    cancels, places := [], [];
    if !env.config.enabled || env.config.takeProfitPercent <= 0.0 {
      return;
    }
    if openOrders.None? {
      return;
    }
    var orderBudget := Max(0, env.config.maxOrders);
    cancels := CancelStale(env, positions, openOrders.value, orderBudget);
    places := PlaceMissing(env, positions, openOrders.value, orderBudget - |cancels|, reply, tracker);
  }

  lemma QuotedStep(env: Env, positions: seq<Position>, places: seq<Send>, before: nat, send: Option<Send>, next: nat)
    requires Quoted(env, positions, places, before) && before <= next <= before + 1
    requires send.Some? ==> PlacesOwn(env, positions, send.value) && send.value.sequence == before && next == before + 1
    ensures Quoted(env, positions, if send.Some? then places + [send.value] else places, next)
  {}

  lemma StillNeeds(env: Env, orders: seq<Order>, m: Positions, middle: Positions, p: Position)
    requires LeavesHeld(m, middle)
    ensures Needs(env, orders, m, p) <==> Needs(env, orders, middle, p)
  {
    assert Held(m, p.symbol) <==> Held(middle, p.symbol);
  }

  lemma PicksStep(places: seq<Send>, needed: seq<bool>, k: nat, room: nat, send: Option<Send>)
    requires k < |needed| && Picks(places, needed, k, room)
    requires send.Some? <==> |places| < room && needed[k]
    requires send.Some? ==> send.value.index == k
    ensures Picks(if send.Some? then places + [send.value] else places, needed, k + 1, room)
  {
    if send.Some? {
      SendsMore(places, send.value);
    }
  }

  ghost predicate AdoptsAll(positions: seq<Position>, orders: seq<Order>, m: Positions, after: Positions, k: nat)
    requires k <= |positions|
  {
    forall i | 0 <= i < k :: AdoptsOwned(orders, m, after, positions[i])
  }

  ghost predicate KnowsAll(after: Positions, places: seq<Send>, reply: nat -> Reply) {
    forall i | 0 <= i < |places| :: KnowsPlaced(after, places[i], reply(i))
  }

  // What the tracker knows after positions[..k].
  ghost predicate TrackedSoFar(positions: seq<Position>, orders: seq<Order>, m: Positions, after: Positions, places: seq<Send>,
                               reply: nat -> Reply, k: nat)
    requires k <= |positions|
  {
    && LeavesHeld(m, after)
    && (DistinctSymbols(positions) ==> AdoptsAll(positions, orders, m, after, k) && KnowsAll(after, places, reply))
  }

  ghost predicate OwnSymbols(positions: seq<Position>, places: seq<Send>, k: nat)
    requires k <= |positions|
  {
    forall i | 0 <= i < |places| :: places[i].Place? && places[i].index < k && places[i].symbol == positions[places[i].index].symbol
  }

  lemma PlacedOwnSymbols(env: Env, positions: seq<Position>, places: seq<Send>, next: nat, k: nat)
    requires k <= |positions| && Quoted(env, positions, places, next) && InOrder(places, k)
    ensures OwnSymbols(positions, places, k)
  {
    forall i | 0 <= i < |places|
      ensures places[i].Place? && places[i].symbol == positions[places[i].index].symbol
    {
      assert PlacesOwn(env, positions, places[i]);
    }
  }

  lemma TrackedStep(positions: seq<Position>, orders: seq<Order>, m: Positions, middle: Positions, after: Positions,
                    places: seq<Send>, reply: nat -> Reply, k: nat, send: Option<Send>)
    requires k < |positions| && TrackedSoFar(positions, orders, m, middle, places, reply, k)
    requires OwnSymbols(positions, places, k)
    requires LeavesHeld(middle, after) && middle - {positions[k].symbol} == after - {positions[k].symbol}
    requires AdoptsOwned(orders, middle, after, positions[k])
    requires send.Some? ==> KnowsPlaced(after, send.value, reply(|places|))
    ensures TrackedSoFar(positions, orders, m, after, if send.Some? then places + [send.value] else places, reply, k + 1)
  {
    HeldSince(m, middle, after);
    if DistinctSymbols(positions) {
      AdoptsAllStep(positions, orders, m, middle, after, k);
      EarlierAvoid(positions, places, k);
      KnowsAllStep(positions[k].symbol, middle, after, places, reply, send);
    }
  }

  lemma AdoptsAllStep(positions: seq<Position>, orders: seq<Order>, m: Positions, middle: Positions, after: Positions, k: nat)
    requires k < |positions| && DistinctSymbols(positions) && AdoptsAll(positions, orders, m, middle, k)
    requires LeavesHeld(m, middle) && middle - {positions[k].symbol} == after - {positions[k].symbol}
    requires AdoptsOwned(orders, middle, after, positions[k])
    ensures AdoptsAll(positions, orders, m, after, k + 1)
  {
    AdoptionSince(orders, m, middle, after, positions[k]);
    forall i | 0 <= i < k
      ensures AdoptsOwned(orders, m, after, positions[i])
    {
      AdoptionSurvives(orders, m, middle, after, positions[k].symbol, positions[i]);
    }
  }

  lemma KnowsAllStep(changed: string, middle: Positions, after: Positions, places: seq<Send>, reply: nat -> Reply, send: Option<Send>)
    requires Avoid(places, changed) && KnowsAll(middle, places, reply)
    requires middle - {changed} == after - {changed}
    requires send.Some? ==> KnowsPlaced(after, send.value, reply(|places|))
    ensures KnowsAll(after, if send.Some? then places + [send.value] else places, reply)
  {
    forall i | 0 <= i < |places|
      ensures KnowsPlaced(after, places[i], reply(i))
    {
      PlacedSurvives(middle, after, changed, places[i], reply(i));
    }
  }

  ghost predicate Avoid(places: seq<Send>, symbol: string) {
    forall i | 0 <= i < |places| :: places[i].Place? && places[i].symbol != symbol
  }

  // Earlier placements are for other symbols.
  lemma EarlierAvoid(positions: seq<Position>, places: seq<Send>, k: nat)
    requires k < |positions| && DistinctSymbols(positions) && OwnSymbols(positions, places, k)
    ensures Avoid(places, positions[k].symbol)
  {
    forall i | 0 <= i < |places|
      ensures places[i].Place? && places[i].symbol != positions[k].symbol
    {
      var q := places[i].index;
      assert positions[q].symbol != positions[k].symbol;
    }
  }

  lemma HeldSince(m: Positions, middle: Positions, after: Positions)
    requires LeavesHeld(m, middle) && LeavesHeld(middle, after)
    ensures LeavesHeld(m, after)
  {
    forall s
      ensures Held(m, s) <==> Held(after, s)
    {
      assert Held(m, s) <==> Held(middle, s);
    }
  }

  lemma PlacedSurvives(before: Positions, after: Positions, changed: string, send: Send, reply: Reply)
    requires KnowsPlaced(before, send, reply) && send.Place? && send.symbol != changed
    requires before - {changed} == after - {changed}
    ensures KnowsPlaced(after, send, reply)
  {
    SameElsewhere(before, after, changed, send.symbol);
  }

  lemma AdoptionSince(orders: seq<Order>, m: Positions, middle: Positions, after: Positions, p: Position)
    requires AdoptsOwned(orders, middle, after, p) && LeavesHeld(m, middle)
    ensures AdoptsOwned(orders, m, after, p)
  {}

  lemma AdoptionSurvives(orders: seq<Order>, m: Positions, before: Positions, after: Positions, changed: string, p: Position)
    requires AdoptsOwned(orders, m, before, p)
    requires before - {changed} == after - {changed} && p.symbol != changed
    ensures AdoptsOwned(orders, m, after, p)
  {
    SameElsewhere(before, after, changed, p.symbol);
    if exists o :: Adopted(orders, before, p, o) {
      var o :| Adopted(orders, before, p, o);
      assert Adopted(orders, after, p, o);
    }
  }

  lemma SameElsewhere(before: Positions, after: Positions, changed: string, s: string)
    requires before - {changed} == after - {changed} && s != changed
    ensures s in before <==> s in after
    ensures s in before ==> before[s] == after[s]
  {
    assert s in before <==> s in before - {changed};
    assert s in after <==> s in after - {changed};
    if s in before {
      assert (before - {changed})[s] == (after - {changed})[s];
    }
  }
}
