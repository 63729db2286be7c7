/** Order updates from the user stream, applied to the tracker (src/engine/signal_engine.cpp:2623-2660). */
module UserEvents {
  import opened Common
  import opened TrackerSpec
  import PositionTracker

  datatype Status = PartiallyFilled | Filled | OtherStatus

  // lastFilled: the reported quantity if it reads as a positive decimal.
  datatype OrderUpdate = OrderUpdate(symbol: string, status: Status, clientOrderId: string, originalClientOrderId: string,
                                     lastFilled: Option<real>, reduceOnly: bool, closePosition: bool)

  ghost predicate Matches(m: Positions, id: string) { id != "" && exists s | s in m :: IsExitOrder(m[s], id) }

  // The update says something about a tracked exit order: a full fill, or a partial one with a quantity.
  predicate Usable(e: OrderUpdate) { e.status == Filled || (e.status == PartiallyFilled && e.lastFilled.Some?) }

  // The client id comes first, the original one (set on amended orders) second.
  ghost function MatchedId(m: Positions, e: OrderUpdate): Option<string> {
    if !Usable(e) then None
    else if Matches(m, e.clientOrderId) then Some(e.clientOrderId)
    else if Matches(m, e.originalClientOrderId) then Some(e.originalClientOrderId)
    else None
  }

  // What the exit order's fill makes of the positions, for an entry the order belongs to.
  ghost predicate Applied(before: Positions, after: Positions, e: OrderUpdate, id: string) {
    exists s :: s in before && IsExitOrder(before[s], id)
                && after == if e.status == Filled then ExitFilled(before, s)
                            else if e.lastFilled.Some? then ExitFill(before, s, e.lastFilled.value) else before
  }

  // Applies the update to the entry the id belongs to, if there is one.
  method ApplyTo(tracker: PositionTracker.Tracker, e: OrderUpdate, id: string) returns (ok: bool)
    requires e.lastFilled.Some? ==> e.lastFilled.value > 0.0
    modifies tracker
    ensures ok <==> Usable(e) && Matches(old(tracker.positions), id)
    ensures ok ==> Applied(old(tracker.positions), tracker.positions, e, id)
    ensures !ok ==> tracker.positions == old(tracker.positions)
  {
    if id == "" {
      return false;
    }
    if e.status == PartiallyFilled && e.lastFilled.Some? {
      ok := tracker.ApplyExitFillByClientId(id, e.lastFilled.value);
    } else if e.status == Filled {
      ok := tracker.RemoveByExitOrderClientId(id);
    } else {
      ok := false;
    }
  }

  /** A fill of a tracked exit order changes that one entry; any other reduce-only or closing fill starts the cooldown and
      changes nothing; everything else is ignored. */
  method OnOrderUpdate(tracker: PositionTracker.Tracker, e: OrderUpdate) returns (cooldown: bool)
    requires e.lastFilled.Some? ==> e.lastFilled.value > 0.0
    modifies tracker
    ensures MatchedId(old(tracker.positions), e).Some? ==>
              !cooldown && Applied(old(tracker.positions), tracker.positions, e, MatchedId(old(tracker.positions), e).value)
    ensures MatchedId(old(tracker.positions), e).None? ==>
              tracker.positions == old(tracker.positions)
              && (cooldown <==> e.status != OtherStatus && (e.reduceOnly || e.closePosition))
  {
    if e.status == OtherStatus {
      return false;
    }
    var ok := ApplyTo(tracker, e, e.clientOrderId);
    if ok {
      return false;
    }
    ok := ApplyTo(tracker, e, e.originalClientOrderId);
    if ok {
      return false;
    }
    return e.reduceOnly || e.closePosition;
  }

  /** No order update touches an entry that is being opened, and none touches two entries. */
  lemma UpdateIsLocal(before: Positions, after: Positions, e: OrderUpdate, id: string, s: string, t: string)
    requires Keyed(before) && id != "" && Applied(before, after, e, id)
    requires s in before && t in before && s != t
    ensures (s in after && after[s] == before[s]) || (t in after && after[t] == before[t])
    ensures before[s].openingInFlight ==> s in after && after[s] == before[s]
  {}

  function Sum(fills: seq<real>): real { if fills == [] then 0.0 else Sum(fills[..|fills| - 1]) + fills[|fills| - 1] }

  // Partial fills of a position's exit orders, one after the other; fills after its removal find nothing.
  function FillAll(m: Positions, s: string, fills: seq<real>): Positions {
    if fills == [] then m
    else
      var before := FillAll(m, s, fills[..|fills| - 1]);
      if s in before then ExitFill(before, s, fills[|fills| - 1]) else before
  }

  /** The tracked quantity is what the fills have left, and the position is gone exactly when they have
      left nothing; its exit orders and all other entries stay as they were. */
  lemma {:induction false} FillsAreConserved(m: Positions, s: string, fills: seq<real>)
    requires s in m && m[s].quantity > QTY_EPSILON && forall f | f in fills :: f > 0.0
    ensures var after := FillAll(m, s, fills);
            && (s in after <==> m[s].quantity - Sum(fills) > QTY_EPSILON)
            && (s in after ==> after[s] == m[s].(quantity := m[s].quantity - Sum(fills)))
            && after - {s} == m - {s}
  {
    if fills != [] {
      var front := fills[..|fills| - 1];
      assert forall f | f in front :: f in fills;
      FillsAreConserved(m, s, front);
      assert fills[|fills| - 1] in fills;
    }
  }
}
