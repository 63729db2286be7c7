/** What each tracker call does to the symbol map (src/engine/position_tracker.cpp). */
module TrackerSpec {
  import opened Common

  datatype TrackedPosition = TrackedPosition(
    symbol: string, direction: Direction, openedAt: int, maxHold: int, entryPrice: real, quantity: real, leverage: int,
    tpOrderId: int, slOrderId: int, tpClientOrderId: string, slClientOrderId: string,
    currentTrailLevel: real, lastTrailingEvalCandleMs: int, openingInFlight: bool, recoveredFromSnapshot: bool)

  // A position the exchange reports.
  datatype Position = Position(symbol: string, positionAmt: real, entryPrice: real, leverage: int)

  type Positions = map<string, TrackedPosition>

  const QTY_EPSILON := 0.000000000001

  const FLAT_EPSILON := 0.0000000001

  predicate Flat(quantity: real) { Abs(quantity) <= FLAT_EPSILON }

  function NonNegative(x: real): real { if x >= 0.0 then x else 0.0 }

  function Pending(symbol: string, now: int): TrackedPosition {
    TrackedPosition(symbol, NoDirection, now, 0, 0.0, 0.0, 0, 0, 0, "", "", 0.0, 0, true, false)
  }

  // ----- Reservation and commitment -----

  predicate CanReserve(m: Positions, symbol: string) { symbol != "" && symbol !in m }

  function Reserve(m: Positions, symbol: string, now: int): Positions {
    if CanReserve(m, symbol) then m[symbol := Pending(symbol, now)] else m
  }

  predicate CanCommit(m: Positions, symbol: string) { symbol in m && m[symbol].openingInFlight }

  function CommitReserved(m: Positions, symbol: string, pos: TrackedPosition): Positions {
    if CanCommit(m, symbol) then m[pos.symbol := pos.(openingInFlight := false)] else m
  }

  function AddRecovered(m: Positions, pos: TrackedPosition, now: int): Positions {
    if pos.symbol != "" && pos.symbol !in m then
      m[pos.symbol := pos.(openingInFlight := false, recoveredFromSnapshot := true,
                           openedAt := if pos.openedAt == 0 then now else pos.openedAt)]
    else m
  }

  predicate CanRemoveOpenedAt(m: Positions, symbol: string, openedAt: int) {
    symbol in m && m[symbol].openedAt == openedAt
  }

  function RemoveIfOpenedAt(m: Positions, symbol: string, openedAt: int): Positions {
    if CanRemoveOpenedAt(m, symbol, openedAt) then m - {symbol} else m
  }

  // ----- Exit fills -----

  predicate IsExitOrder(pos: TrackedPosition, clientOrderId: string) {
    pos.tpClientOrderId == clientOrderId || pos.slClientOrderId == clientOrderId
  }

  function ExitFilled(m: Positions, symbol: string): Positions { m - {symbol} }

  function ExitFill(m: Positions, symbol: string, filledDeltaQty: real): Positions
    requires symbol in m
  {
    var left := NonNegative(m[symbol].quantity - filledDeltaQty);
    if left <= QTY_EPSILON then m - {symbol} else m[symbol := m[symbol].(quantity := left)]
  }

  // ----- Field updates: only on an entry that exists and is not in flight -----

  predicate Updatable(m: Positions, symbol: string) { symbol in m && !m[symbol].openingInFlight }

  datatype Update =
    | StopLoss(slOrderId: int, slClientOrderId: string, level: real)
    | TrailingEvaluated(candleOpenTimeMs: int)
    | TakeProfit(tpOrderId: int, tpClientOrderId: string)
    | NoTakeProfit
    | View(entryPrice: real, quantity: real)
    | Snapshot(entryPrice: real, quantity: real, leverage: int)

  function Updated(pos: TrackedPosition, u: Update): TrackedPosition {
    match u
    case StopLoss(id, client, level) => pos.(slOrderId := id, slClientOrderId := client, currentTrailLevel := level)
    case TrailingEvaluated(t) =>
      pos.(lastTrailingEvalCandleMs := if pos.lastTrailingEvalCandleMs < t then t else pos.lastTrailingEvalCandleMs)
    case TakeProfit(id, client) => pos.(tpOrderId := id, tpClientOrderId := client)
    case NoTakeProfit => pos.(tpOrderId := 0, tpClientOrderId := "")
    case View(price, qty) => pos.(entryPrice := price, quantity := NonNegative(qty))
    case Snapshot(price, qty, lev) => pos.(entryPrice := price, quantity := NonNegative(qty), leverage := lev)
  }

  function Apply(m: Positions, symbol: string, u: Update): Positions {
    if Updatable(m, symbol) then m[symbol := Updated(m[symbol], u)] else m
  }

  // ----- Start-up -----

  function Recovered(p: Position, now: int, maxHold: int): TrackedPosition {
    TrackedPosition(p.symbol, if p.positionAmt >= 0.0 then Long else Short, now, maxHold, p.entryPrice, Abs(p.positionAmt),
                    p.leverage, 0, 0, "", "", 0.0, 0, false, true)
  }

  // The last non-flat report of a symbol wins.
  function Loaded(positions: seq<Position>, now: int, maxHold: int): Positions {
    if positions == [] then map[]
    else
      var m := Loaded(positions[..|positions| - 1], now, maxHold);
      var p := positions[|positions| - 1];
      if Abs(p.positionAmt) <= 0.0 then m else m[p.symbol := Recovered(p, now, maxHold)]
  }

  // ----- What every call keeps -----

  ghost predicate Keyed(m: Positions) {
    forall s | s in m :: m[s].symbol == s && (m[s].openingInFlight ==> m[s].tpClientOrderId == "" && m[s].slClientOrderId == "")
  }

  /** A reserved entry answers to nothing but commit, a removal by its own stamp, or a plain remove:
      every other call leaves it exactly as it is, and an exit fill never finds it. */
  lemma ReservedIsInert(m: Positions, s: string, symbol: string, u: Update, pos: TrackedPosition, now: int, openedAt: int, id: string)
    requires Keyed(m) && s in m && m[s].openingInFlight
    ensures s in Apply(m, symbol, u) && Apply(m, symbol, u)[s] == m[s]
    ensures s in AddRecovered(m, pos, now) && AddRecovered(m, pos, now)[s] == m[s]
    ensures s in Reserve(m, symbol, now) && Reserve(m, symbol, now)[s] == m[s]
    ensures openedAt != m[s].openedAt ==> s in RemoveIfOpenedAt(m, symbol, openedAt) && RemoveIfOpenedAt(m, symbol, openedAt)[s] == m[s]
    ensures id != "" ==> !IsExitOrder(m[s], id)
  {}
}

/** The tracker itself: one map, updated in place by every call. */
module PositionTracker {
  import opened Common
  import opened TrackerSpec

  class Tracker {
    var positions: Positions

    constructor ()
      ensures positions == map[]
    {
      positions := map[];
    }

    method LoadFromSnapshot(snapshot: seq<Position>, maxHold: int, now: int)
      modifies this
      ensures positions == Loaded(snapshot, now, maxHold)
    {
      positions := map[];
      for i := 0 to |snapshot|
        invariant positions == Loaded(snapshot[..i], now, maxHold)
      {
        assert snapshot[..i + 1][..i] == snapshot[..i];
        var p := snapshot[i];
        var absQty := if p.positionAmt < 0.0 then -p.positionAmt else p.positionAmt;
        if absQty <= 0.0 {
          continue;
        }
        var direction := if p.positionAmt >= 0.0 then Long else Short;
        positions := positions[p.symbol := TrackedPosition(
          p.symbol, direction, now, maxHold, p.entryPrice, absQty, p.leverage, 0, 0, "", "", 0.0, 0, false, true)];
      }
      assert snapshot[..|snapshot|] == snapshot;
    }

    method Reserve(symbol: string, now: int) returns (ok: bool)
      modifies this
      ensures ok <==> CanReserve(old(positions), symbol)
      ensures positions == TrackerSpec.Reserve(old(positions), symbol, now)
    {
      if symbol == "" || symbol in positions {
        return false;
      }
      positions := positions[symbol := TrackedPosition(symbol, NoDirection, now, 0, 0.0, 0.0, 0, 0, 0, "", "", 0.0, 0, true, false)];
      return true;
    }

    method CommitReserved(symbol: string, pos: TrackedPosition) returns (ok: bool)
      modifies this
      ensures ok <==> CanCommit(old(positions), symbol)
      ensures positions == TrackerSpec.CommitReserved(old(positions), symbol, pos)
    {
      if symbol !in positions || !positions[symbol].openingInFlight {
        return false;
      }
      positions := positions[pos.symbol := pos.(openingInFlight := false)];
      return true;
    }

    method AddRecovered(pos: TrackedPosition, now: int) returns (ok: bool)
      modifies this
      ensures ok <==> pos.symbol != "" && pos.symbol !in old(positions)
      ensures positions == TrackerSpec.AddRecovered(old(positions), pos, now)
    {
      if pos.symbol == "" || pos.symbol in positions {
        return false;
      }
      var entry := pos.(openingInFlight := false, recoveredFromSnapshot := true);
      if entry.openedAt == 0 {
        entry := entry.(openedAt := now);
      }
      positions := positions[pos.symbol := entry];
      return true;
    }

    method Remove(symbol: string)
      modifies this
      ensures positions == old(positions) - {symbol}
    {
      positions := positions - {symbol};
    }

    method RemoveIfOpenedAt(symbol: string, openedAt: int) returns (ok: bool)
      modifies this
      ensures ok <==> CanRemoveOpenedAt(old(positions), symbol, openedAt)
      ensures positions == TrackerSpec.RemoveIfOpenedAt(old(positions), symbol, openedAt)
    {
      if symbol !in positions || positions[symbol].openedAt != openedAt {
        return false;
      }
      positions := positions - {symbol};
      return true;
    }

    // Visits the entries in no particular order and stops at the first one the order belongs to.
    method FindExitOrder(clientOrderId: string) returns (found: bool, symbol: string)
      ensures found ==> symbol in positions && IsExitOrder(positions[symbol], clientOrderId)
      ensures !found ==> forall s | s in positions :: !IsExitOrder(positions[s], clientOrderId)
    {
      var rest := positions.Keys;
      while rest != {}
        invariant rest <= positions.Keys
        invariant forall s | s in positions && s !in rest :: !IsExitOrder(positions[s], clientOrderId)
      {
        var s :| s in rest;
        if positions[s].tpClientOrderId == clientOrderId || positions[s].slClientOrderId == clientOrderId {
          return true, s;
        }
        rest := rest - {s};
      }
      return false, "";
    }

    method RemoveByExitOrderClientId(clientOrderId: string) returns (ok: bool)
      modifies this
      ensures !ok ==> positions == old(positions) && forall s | s in positions :: !IsExitOrder(positions[s], clientOrderId)
      ensures ok ==> exists s :: s in old(positions) && IsExitOrder(old(positions)[s], clientOrderId)
                                && positions == ExitFilled(old(positions), s)
    {
      var symbol;
      ok, symbol := FindExitOrder(clientOrderId);
      if ok {
        positions := positions - {symbol};
      }
    }

    method ApplyExitFillByClientId(clientOrderId: string, filledDeltaQty: real) returns (ok: bool)
      modifies this
      ensures filledDeltaQty <= 0.0 ==> !ok
      ensures !ok ==> positions == old(positions)
      ensures !ok && filledDeltaQty > 0.0 ==> forall s | s in positions :: !IsExitOrder(positions[s], clientOrderId)
      ensures ok ==> exists s :: s in old(positions) && IsExitOrder(old(positions)[s], clientOrderId)
                                && positions == ExitFill(old(positions), s, filledDeltaQty)
    {
      if filledDeltaQty <= 0.0 {
        return false;
      }
      var symbol;
      ok, symbol := FindExitOrder(clientOrderId);
      if ok {
        var left := positions[symbol].quantity - filledDeltaQty;
        if left < 0.0 {
          left := 0.0;
        }
        if left <= 0.000000000001 {
          positions := positions - {symbol};
        } else {
          positions := positions[symbol := positions[symbol].(quantity := left)];
        }
      }
    }

    // Entries being opened stay invisible.
    method All() returns (out: seq<TrackedPosition>)
      ensures forall p :: p in out <==> exists s :: s in positions && positions[s] == p && !p.openingInFlight
    {
      out := [];
      var rest := positions.Keys;
      while rest != {}
        invariant rest <= positions.Keys
        invariant forall p :: p in out <==> exists s :: s in positions && s !in rest && positions[s] == p && !p.openingInFlight
      {
        var s :| s in rest;
        rest := rest - {s};
        if !positions[s].openingInFlight {
          out := out + [positions[s]];
        }
      }
    }

    method Expired(now: int) returns (out: seq<TrackedPosition>)
      ensures forall p :: p in out <==> exists s :: s in positions && positions[s] == p && !p.openingInFlight
                                                    && p.maxHold > 0 && now - p.openedAt >= p.maxHold
    {
      out := [];
      var rest := positions.Keys;
      while rest != {}
        invariant rest <= positions.Keys
        invariant forall p :: p in out <==> exists s :: s in positions && s !in rest && positions[s] == p && !p.openingInFlight
                                                        && p.maxHold > 0 && now - p.openedAt >= p.maxHold
      {
        var s :| s in rest;
        rest := rest - {s};
        var pos := positions[s];
        if !pos.openingInFlight && pos.maxHold > 0 && now - pos.openedAt >= pos.maxHold {
          out := out + [pos];
        }
      }
    }

    method UpdateStopLoss(symbol: string, slOrderId: int, slClientOrderId: string, level: real) returns (ok: bool)
      modifies this
      ensures ok <==> Updatable(old(positions), symbol)
      ensures positions == Apply(old(positions), symbol, StopLoss(slOrderId, slClientOrderId, level))
    {
      if symbol !in positions || positions[symbol].openingInFlight {
        return false;
      }
      positions := positions[symbol := positions[symbol].(slOrderId := slOrderId, slClientOrderId := slClientOrderId,
                                                          currentTrailLevel := level)];
      return true;
    }

    method MarkTrailingEvaluated(symbol: string, candleOpenTimeMs: int) returns (ok: bool)
      modifies this
      ensures ok <==> Updatable(old(positions), symbol)
      ensures positions == Apply(old(positions), symbol, TrailingEvaluated(candleOpenTimeMs))
    {
      if symbol !in positions || positions[symbol].openingInFlight {
        return false;
      }
      var pos := positions[symbol];
      if pos.lastTrailingEvalCandleMs < candleOpenTimeMs {
        pos := pos.(lastTrailingEvalCandleMs := candleOpenTimeMs);
      }
      positions := positions[symbol := pos];
      return true;
    }

    method UpdateTakeProfit(symbol: string, tpOrderId: int, tpClientOrderId: string) returns (ok: bool)
      modifies this
      ensures ok <==> Updatable(old(positions), symbol)
      ensures positions == Apply(old(positions), symbol, TakeProfit(tpOrderId, tpClientOrderId))
    {
      if symbol !in positions || positions[symbol].openingInFlight {
        return false;
      }
      positions := positions[symbol := positions[symbol].(tpOrderId := tpOrderId, tpClientOrderId := tpClientOrderId)];
      return true;
    }

    method ClearTakeProfit(symbol: string) returns (ok: bool)
      modifies this
      ensures ok <==> Updatable(old(positions), symbol)
      ensures positions == Apply(old(positions), symbol, NoTakeProfit)
    {
      if symbol !in positions || positions[symbol].openingInFlight {
        return false;
      }
      positions := positions[symbol := positions[symbol].(tpOrderId := 0, tpClientOrderId := "")];
      return true;
    }

    method RefreshPositionView(symbol: string, entryPrice: real, quantity: real) returns (ok: bool)
      modifies this
      ensures ok <==> Updatable(old(positions), symbol)
      ensures positions == Apply(old(positions), symbol, View(entryPrice, quantity))
    {
      if symbol !in positions || positions[symbol].openingInFlight {
        return false;
      }
      var notNegative := if quantity < 0.0 then 0.0 else quantity;
      positions := positions[symbol := positions[symbol].(entryPrice := entryPrice, quantity := notNegative)];
      return true;
    }

    method RefreshFromSnapshot(symbol: string, entryPrice: real, quantity: real, leverage: int) returns (ok: bool)
      modifies this
      ensures ok <==> Updatable(old(positions), symbol)
      ensures positions == Apply(old(positions), symbol, Snapshot(entryPrice, quantity, leverage))
    {
      if symbol !in positions || positions[symbol].openingInFlight {
        return false;
      }
      var notNegative := if quantity < 0.0 then 0.0 else quantity;
      positions := positions[symbol := positions[symbol].(entryPrice := entryPrice, quantity := notNegative, leverage := leverage)];
      return true;
    }
  }
}
