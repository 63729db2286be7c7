/** Averaging down and break-even take-profits (src/engine/loss_manager.cpp). What ports, caps and exposure
    answer, and the levels they are asked about, are arbitrary inputs of a cycle. */
module LossManager {
  import opened Common
  import opened TrackerSpec

  datatype Config = Config(roiBeThreshold: real, roiDcaThreshold: real, maxDcaCount: int,
                           fallbackTakerFeeRate: real, allowDcaOnRecovered: bool, pendingTimeoutCycles: int)

  predicate ValidConfig(c: Config) {
    && c.roiBeThreshold < 0.0 && c.roiDcaThreshold <= c.roiBeThreshold && c.maxDcaCount >= 0
    && 0.0 <= c.fallbackTakerFeeRate < 0.5 && c.pendingTimeoutCycles > 0
  }

  datatype Live = Live(symbol: string, positionAmt: real, entryPrice: real, markPrice: real, leverage: int, bothSides: bool)

  datatype Record = Record(originalQuantity: real, dcaCount: int, beCurrent: bool, beEntryPrice: real, bePositionAmt: real,
                           dcaPending: bool, dcaPendingCycles: int, dcaOrderId: int,
                           positionAmtBeforeDca: real, entryPriceBeforeDca: real)

  const FRESH := Record(0.0, 0, false, 0.0, 0.0, false, 0, 0, 0.0, 0.0)

  const EPSILON := 0.000000001

  // What the ports answer in one cycle.
  datatype Answers = Answers(stepSize: real, quantityRounds: bool, capAllows: bool, exposureAllows: bool,
                             trackedBeforeOrder: bool, dcaAccepted: bool, dcaOrderId: int, trackedAfterOrder: bool,
                             takeProfitMoved: bool)

  datatype Cycle = Cycle(tracked: TrackedPosition, live: Live, answers: Answers)

  // One tracked position in one evaluation. live: its report in the snapshot; stillTracked: the tracker still holds this very
  // position when its turn comes.
  datatype Visit = Visit(tracked: TrackedPosition, live: Option<Live>, stillTracked: bool, answers: Answers)

  // ----- Pure helpers -----

  function CalcRoi(p: Live): real {
    if p.entryPrice <= 0.0 || Abs(p.positionAmt) <= EPSILON || p.leverage <= 0 then 0.0
    else (p.markPrice - p.entryPrice) / p.entryPrice * p.leverage as real * (if p.positionAmt > 0.0 then 1.0 else -1.0)
  }

  predicate SameSide(p: Live, t: TrackedPosition) {
    (p.positionAmt > 0.0 && t.direction == Long) || (p.positionAmt < 0.0 && t.direction == Short)
  }

  predicate NearEqual(a: real, b: real, epsilon: real) {
    Abs(a - b) <= MaxReal(epsilon, MaxReal(Abs(a), Abs(b)) * EPSILON)
  }

  function FallbackBreakEven(entryPrice: real, isLong: bool, fee: real): real
    requires 0.0 <= fee < 0.5
  {
    if isLong then entryPrice * (1.0 + fee) / (1.0 - fee) else entryPrice * (1.0 - fee) / (1.0 + fee)
  }

  /** At the fallback price a round trip paying the fee on both legs nets nothing, on either side. */
  lemma FallbackNetsZero(entryPrice: real, isLong: bool, fee: real)
    requires 0.0 <= fee < 0.5
    ensures var exit := FallbackBreakEven(entryPrice, isLong, fee);
            (if isLong then exit - entryPrice else entryPrice - exit) == fee * entryPrice + fee * exit
  {
    var exit := FallbackBreakEven(entryPrice, isLong, fee);
    if isLong {
      assert exit * (1.0 - fee) == entryPrice * (1.0 + fee);
    } else {
      assert exit * (1.0 + fee) == entryPrice * (1.0 - fee);
    }
  }

  function Tolerance(stepSize: real): real { if stepSize > 0.0 then stepSize * 0.5 else EPSILON }

  // ----- One cycle on one record -----

  // Sets the original quantity once; a recovered position starts with its count used up unless allowed.
  function Initialise(c: Config, r: Record, t: TrackedPosition, absLive: real): Record {
    if r.originalQuantity <= 0.0 then
      var r' := r.(originalQuantity := if t.quantity > 0.0 then t.quantity else absLive);
      if t.recoveredFromSnapshot && !c.allowDcaOnRecovered then r'.(dcaCount := c.maxDcaCount) else r'
    else r
  }

  predicate DcaFilled(r: Record, absLive: real, tolerance: real) {
    absLive + tolerance >= Abs(r.positionAmtBeforeDca) + r.originalQuantity
  }

  predicate WantsDca(c: Config, r: Record, p: Live) {
    CalcRoi(p) <= c.roiDcaThreshold && !r.dcaPending && c.maxDcaCount > 0 && r.dcaCount < c.maxDcaCount
  }

  // The order is sent only past every gate; it is recorded only if the position is still the tracked one afterwards.
  predicate SendsDca(t: TrackedPosition, a: Answers) {
    a.quantityRounds && a.capAllows && a.exposureAllows && a.trackedBeforeOrder && (t.slOrderId > 0 || t.slClientOrderId != "")
  }

  predicate RecordsDca(t: TrackedPosition, a: Answers) { SendsDca(t, a) && a.dcaAccepted && a.trackedAfterOrder }

  function ApplyBreakEven(r: Record, p: Live, a: Answers): Record {
    if !r.beCurrent && a.takeProfitMoved then
      r.(beCurrent := true, beEntryPrice := p.entryPrice, bePositionAmt := Abs(p.positionAmt))
    else r
  }

  function AfterFill(r: Record): Record { r.(dcaCount := r.dcaCount + 1, dcaPending := false, dcaPendingCycles := 0, beCurrent := false) }

  // The break-even order no longer matches the position it was placed for.
  predicate BreakEvenStale(r: Record, p: Live, tolerance: real) {
    r.beCurrent && (!NearEqual(r.beEntryPrice, p.entryPrice, 0.00000001) || !NearEqual(r.bePositionAmt, Abs(p.positionAmt), tolerance))
  }

  // Everything past the pending check.
  function Act(c: Config, r: Record, cy: Cycle): Record {
    var p := cy.live;
    var r1 := if BreakEvenStale(r, p, Tolerance(cy.answers.stepSize)) then r.(beCurrent := false) else r;
    if WantsDca(c, r1, p) && RecordsDca(cy.tracked, cy.answers) then
      r1.(dcaPending := true, dcaPendingCycles := 0, dcaOrderId := cy.answers.dcaOrderId,
          positionAmtBeforeDca := Abs(p.positionAmt), entryPriceBeforeDca := p.entryPrice, beCurrent := false)
    else if CalcRoi(p) <= c.roiBeThreshold then ApplyBreakEven(r1, p, cy.answers)
    else r1
  }

  function Process(c: Config, r: Record, cy: Cycle): Record {
    var absLive := Abs(cy.live.positionAmt);
    var r0 := Initialise(c, r, cy.tracked, absLive);
    if r0.dcaPending then
      if DcaFilled(r0, absLive, Tolerance(cy.answers.stepSize)) then Act(c, AfterFill(r0), cy)
      else r0.(dcaPendingCycles := if r0.dcaPendingCycles <= c.pendingTimeoutCycles then r0.dcaPendingCycles + 1 else r0.dcaPendingCycles)
    else Act(c, r0, cy)
  }

  // Whether the cycle records an accepted averaging-down order.
  predicate Orders(c: Config, r: Record, cy: Cycle) {
    var absLive := Abs(cy.live.positionAmt);
    var r0 := Initialise(c, r, cy.tracked, absLive);
    var r1 := if r0.dcaPending && DcaFilled(r0, absLive, Tolerance(cy.answers.stepSize)) then AfterFill(r0) else r0;
    WantsDca(c, r1, cy.live) && RecordsDca(cy.tracked, cy.answers)
  }

  lemma SameSymbols(visits: seq<Visit>)
    ensures var tracked := seq(|visits|, i requires 0 <= i < |visits| => visits[i].tracked);
            forall s :: s in Symbols(visits) <==> exists t :: t in tracked && t.symbol == s
  {
    var tracked := seq(|visits|, i requires 0 <= i < |visits| => visits[i].tracked);
    forall s
      ensures s in Symbols(visits) <==> exists t :: t in tracked && t.symbol == s
    {
      if s in Symbols(visits) {
        var i :| 0 <= i < |visits| && visits[i].tracked.symbol == s;
        assert tracked[i] in tracked;
      }
      if t :| t in tracked && t.symbol == s {
        var i :| 0 <= i < |tracked| && tracked[i] == t;
        assert visits[i] in visits;
      }
    }
  }

  // ----- The manager -----

  class Manager {
    const config: Config
    var states: map<string, Record>

    constructor (config: Config)
      ensures this.config == config && states == map[]
    {
      this.config := config;
      states := map[];
    }

    // stillTracked: the tracker still holds this very position.
    method ProcessTrackedPosition(cy: Cycle, stillTracked: bool)
      modifies this`states
      ensures states == Processed(config, old(states), cy, stillTracked)
    {
      var sym, live, a := cy.tracked.symbol, cy.live, cy.answers;
      if live.positionAmt == 0.0 || cy.tracked.direction != (if live.positionAmt > 0.0 then Long else Short) {
        return;
      }
      if !stillTracked {
        states := states - {sym};
        return;
      }
      var tolerance := if a.stepSize > 0.0 then a.stepSize * 0.5 else EPSILON;
      var absLive := Abs(live.positionAmt);
      var state := if sym in states then states[sym] else FRESH;
      if state.originalQuantity <= 0.0 {
        state := state.(originalQuantity := if cy.tracked.quantity > 0.0 then cy.tracked.quantity else absLive);
        if cy.tracked.recoveredFromSnapshot && !config.allowDcaOnRecovered {
          state := state.(dcaCount := config.maxDcaCount);
        }
      }
      assert state == Initialise(config, if sym in states then states[sym] else FRESH, cy.tracked, absLive);
      if state.dcaPending {
        var expected := Abs(state.positionAmtBeforeDca) + state.originalQuantity;
        if absLive + tolerance >= expected {
          state := state.(dcaCount := state.dcaCount + 1, dcaPending := false, dcaPendingCycles := 0, beCurrent := false);
        } else {
          if state.dcaPendingCycles <= config.pendingTimeoutCycles {
            state := state.(dcaPendingCycles := state.dcaPendingCycles + 1);
          }
          states := states[sym := state];
          return;
        }
      }
      state := ActOnLoss(config, state, cy);
      assert state == Process(config, if sym in states then states[sym] else FRESH, cy);
      states := states[sym := state];
    }

    // Past the pending check: averages down, or else moves the take-profit to break-even.
    static method ActOnLoss(config: Config, before: Record, cy: Cycle) returns (state: Record)
      ensures state == Act(config, before, cy)
    {
      var live, absLive := cy.live, Abs(cy.live.positionAmt);
      state := before;
      if state.beCurrent {
        var tolerance := if cy.answers.stepSize > 0.0 then cy.answers.stepSize * 0.5 else EPSILON;
        var samePrice := CheckNearEqual(state.beEntryPrice, live.entryPrice, 0.00000001);
        var sameAmount := CheckNearEqual(state.bePositionAmt, absLive, tolerance);
        if !samePrice || !sameAmount {
          state := state.(beCurrent := false);
        }
      }
      var roi := CalcRoi(live);
      if roi <= config.roiDcaThreshold && !state.dcaPending && config.maxDcaCount > 0 && state.dcaCount < config.maxDcaCount {
        var dcaPlaced := PlaceDca(cy.tracked, cy.answers);
        if dcaPlaced {
          return state.(dcaPending := true, dcaPendingCycles := 0, dcaOrderId := cy.answers.dcaOrderId,
            positionAmtBeforeDca := absLive, entryPriceBeforeDca := live.entryPrice, beCurrent := false);
        }
      }
      if roi <= config.roiBeThreshold && !state.beCurrent && cy.answers.takeProfitMoved {
        state := state.(beCurrent := true, beEntryPrice := live.entryPrice, bePositionAmt := absLive);
      }
    }

    static method CheckNearEqual(a: real, b: real, epsilon: real) returns (near: bool)
      ensures near <==> NearEqual(a, b, epsilon)
    {
      var scale := if Abs(a) >= Abs(b) then Abs(a) else Abs(b);
      var distance := if a >= b then a - b else b - a;
      return distance <= epsilon || distance <= scale * EPSILON;
    }

    // Whether an accepted order is left pending.
    static method PlaceDca(t: TrackedPosition, a: Answers) returns (placed: bool)
      ensures placed <==> RecordsDca(t, a)
    {
      if !a.quantityRounds || !a.capAllows || !a.exposureAllows || !a.trackedBeforeOrder {
        return false;
      }
      if t.slOrderId <= 0 && t.slClientOrderId == "" {
        return false;
      }
      if !a.dcaAccepted {
        return false;
      }
      return a.trackedAfterOrder;
    }

    // One pass over the tracked positions.
    method Evaluate(visits: seq<Visit>)
      modifies this`states
      ensures states == Evaluated(config, old(states), visits)
    {
      EraseUntracked(seq(|visits|, i requires 0 <= i < |visits| => visits[i].tracked));
      ghost var kept := map s | s in old(states) && s in Symbols(visits) :: old(states)[s];
      assert states == kept by {
        SameSymbols(visits);
      }
      for k := 0 to |visits|
        invariant states == VisitAll(config, kept, visits[..k])
      {
        var v := visits[k];
        assert visits[..k + 1][..k] == visits[..k];
        match v.live {
          case None => states := states - {v.tracked.symbol};
          case Some(live) => ProcessTrackedPosition(Cycle(v.tracked, live, v.answers), v.stillTracked);
        }
      }
      assert visits[..|visits|] == visits;
    }

    // Records of symbols no longer tracked are forgotten before a pass.
    method EraseUntracked(tracked: seq<TrackedPosition>)
      modifies this`states
      ensures states == map s | s in old(states) && (exists t :: t in tracked && t.symbol == s) :: old(states)[s]
    {
      var names := set t | t in tracked :: t.symbol;
      states := states - (states.Keys - names);
    }
  }

  // ----- A whole evaluation -----

  type Records = map<string, Record>

  function Lookup(states: Records, symbol: string): Option<Record> {
    if symbol in states then Some(states[symbol]) else None
  }

  function Processed(c: Config, states: Records, cy: Cycle, stillTracked: bool): Records {
    var sym := cy.tracked.symbol;
    if !SameSide(cy.live, cy.tracked) then states
    else if !stillTracked then states - {sym}
    else states[sym := Process(c, if sym in states then states[sym] else FRESH, cy)]
  }

  function Visited(c: Config, states: Records, v: Visit): Records {
    match v.live
    case None => states - {v.tracked.symbol}
    case Some(live) => Processed(c, states, Cycle(v.tracked, live, v.answers), v.stillTracked)
  }

  function VisitAll(c: Config, states: Records, visits: seq<Visit>): Records {
    if visits == [] then states else Visited(c, VisitAll(c, states, visits[..|visits| - 1]), visits[|visits| - 1])
  }

  function Symbols(visits: seq<Visit>): set<string> { set v | v in visits :: v.tracked.symbol }

  // One evaluation: records of symbols no longer tracked go first.
  function Evaluated(c: Config, states: Records, visits: seq<Visit>): Records {
    VisitAll(c, map s | s in states && s in Symbols(visits) :: states[s], visits)
  }

  function ManagerAfter(c: Config, passes: seq<seq<Visit>>): Records {
    if passes == [] then map[] else Evaluated(c, ManagerAfter(c, passes[..|passes| - 1]), passes[|passes| - 1])
  }

  // The tracker holds one position a symbol.
  ghost predicate OnePerSymbol(visits: seq<Visit>) {
    forall i, j | 0 <= i < j < |visits| :: visits[i].tracked.symbol != visits[j].tracked.symbol
  }

  // What an evaluation means for one symbol.
  datatype Event = Gone | Skipped | Seen(cycle: Cycle)

  function EventOf(v: Visit): Event {
    match v.live
    case None => Gone
    case Some(live) =>
      if !SameSide(live, v.tracked) then Skipped
      else if !v.stillTracked then Gone
      else Seen(Cycle(v.tracked, live, v.answers))
  }

  function EventIn(visits: seq<Visit>, symbol: string): Event {
    if visits == [] then Gone
    else if visits[|visits| - 1].tracked.symbol == symbol then EventOf(visits[|visits| - 1])
    else EventIn(visits[..|visits| - 1], symbol)
  }

  // The cycles the symbol's record has been through since it was started.
  function Span(passes: seq<seq<Visit>>, symbol: string): seq<Cycle> {
    if passes == [] then []
    else
      match EventIn(passes[|passes| - 1], symbol)
      case Gone => []
      case Skipped => Span(passes[..|passes| - 1], symbol)
      case Seen(cy) => Span(passes[..|passes| - 1], symbol) + [cy]
  }

  function AfterEvent(c: Config, r: Option<Record>, e: Event): Option<Record> {
    match e
    case Gone => None
    case Skipped => r
    case Seen(cy) => Some(Process(c, if r.Some? then r.value else FRESH, cy))
  }

  lemma {:induction false} VisitsElsewhere(c: Config, states: Records, visits: seq<Visit>, symbol: string)
    requires symbol !in Symbols(visits)
    ensures Lookup(VisitAll(c, states, visits), symbol) == Lookup(states, symbol) && EventIn(visits, symbol) == Gone
  {
    if visits != [] {
      var front, v := visits[..|visits| - 1], visits[|visits| - 1];
      assert v in visits && Symbols(front) <= Symbols(visits);
      VisitsElsewhere(c, states, front, symbol);
    }
  }

  lemma {:induction false} VisitsOnce(c: Config, states: Records, visits: seq<Visit>, symbol: string)
    requires OnePerSymbol(visits) && symbol in Symbols(visits)
    ensures Lookup(VisitAll(c, states, visits), symbol) == AfterEvent(c, Lookup(states, symbol), EventIn(visits, symbol))
  {
    var front, v := visits[..|visits| - 1], visits[|visits| - 1];
    assert visits == front + [v];
    if v.tracked.symbol == symbol {
      assert symbol !in Symbols(front);
      VisitsElsewhere(c, states, front, symbol);
    } else {
      VisitsOnce(c, states, front, symbol);
    }
  }

  /** Over any run of evaluations a symbol has a record exactly when it was seen since the last evaluation that found it untracked
      or unreported; the record is what the cycles since then make of a fresh one, whichever positions they were about. */
  lemma {:induction false} RecordIsSpan(c: Config, passes: seq<seq<Visit>>, symbol: string)
    requires forall p | p in passes :: OnePerSymbol(p)
    ensures var span := Span(passes, symbol);
            Lookup(ManagerAfter(c, passes), symbol) == if span == [] then None else Some(RecordAfter(c, span))
  {
    if passes != [] {
      var front, visits := passes[..|passes| - 1], passes[|passes| - 1];
      assert visits in passes;
      RecordIsSpan(c, front, symbol);
      var before := ManagerAfter(c, front);
      var kept := map s | s in before && s in Symbols(visits) :: before[s];
      if symbol in Symbols(visits) {
        VisitsOnce(c, kept, visits, symbol);
        assert Lookup(kept, symbol) == Lookup(before, symbol);
        match EventIn(visits, symbol)
        case Seen(cy) => SpanGrows(c, Span(front, symbol), cy);
        case _ =>
      } else {
        VisitsElsewhere(c, kept, visits, symbol);
      }
    }
  }

  lemma SpanGrows(c: Config, span: seq<Cycle>, cy: Cycle)
    ensures RecordAfter(c, span + [cy]) == Process(c, if span == [] then FRESH else RecordAfter(c, span), cy)
  {
    assert (span + [cy])[..|span|] == span;
  }

  // ----- Over every run of cycles on one record -----

  function RecordAfter(c: Config, cycles: seq<Cycle>): Record {
    if cycles == [] then FRESH else Process(c, RecordAfter(c, cycles[..|cycles| - 1]), cycles[|cycles| - 1])
  }

  function OrdersSent(c: Config, cycles: seq<Cycle>): nat {
    if cycles == [] then 0
    else
      OrdersSent(c, cycles[..|cycles| - 1]) +
      if Orders(c, RecordAfter(c, cycles[..|cycles| - 1]), cycles[|cycles| - 1]) then 1 else 0
  }

  // The count a record starts from.
  function StartCount(c: Config, cycles: seq<Cycle>): int {
    if cycles != [] && cycles[0].tracked.recoveredFromSnapshot && !c.allowDcaOnRecovered then c.maxDcaCount else 0
  }

  function OriginalQuantity(cycles: seq<Cycle>): real
    requires cycles != []
  {
    if cycles[0].tracked.quantity > 0.0 then cycles[0].tracked.quantity else Abs(cycles[0].live.positionAmt)
  }

  function Pending(r: Record): int { if r.dcaPending then 1 else 0 }

  lemma {:induction false} RunInvariant(c: Config, cycles: seq<Cycle>)
    requires ValidConfig(c) && cycles != [] && forall cy | cy in cycles :: cy.live.positionAmt != 0.0
    ensures var r := RecordAfter(c, cycles);
            && r.originalQuantity == OriginalQuantity(cycles) > 0.0
            && 0 <= r.dcaCount && r.dcaCount + Pending(r) <= c.maxDcaCount
            && OrdersSent(c, cycles) == r.dcaCount - StartCount(c, cycles) + Pending(r)
  {
    var front := cycles[..|cycles| - 1];
    assert cycles[0] in cycles;
    if front == [] {
      assert RecordAfter(c, front) == FRESH && OrdersSent(c, front) == 0;
      OneCycle(c, FRESH, cycles[0]);
    } else {
      RunInvariant(c, front);
      OneCycle(c, RecordAfter(c, front), cycles[|cycles| - 1]);
    }
  }

  lemma OneCycle(c: Config, r: Record, cy: Cycle)
    requires ValidConfig(c) && cy.live.positionAmt != 0.0
    requires 0 <= r.dcaCount && r.dcaCount + Pending(r) <= c.maxDcaCount
    requires r.originalQuantity <= 0.0 ==> !r.dcaPending
    ensures var r', r0 := Process(c, r, cy), Initialise(c, r, cy.tracked, Abs(cy.live.positionAmt));
            && r'.originalQuantity == r0.originalQuantity > 0.0
            && 0 <= r'.dcaCount && r'.dcaCount + Pending(r') <= c.maxDcaCount
            && r'.dcaCount + Pending(r') == r0.dcaCount + Pending(r0) + (if Orders(c, r, cy) then 1 else 0)
  {}

  /** However prices, ports and fills behave, a record never has more than maxDcaCount orders counted and pending;
      the orders it recorded are exactly what its count gained plus what is pending; and a recovered position
      gets none unless the configuration allows it. */
  lemma OrdersAreAccountedFor(c: Config, cycles: seq<Cycle>)
    requires ValidConfig(c) && forall cy | cy in cycles :: cy.live.positionAmt != 0.0
    ensures var r := RecordAfter(c, cycles);
            && 0 <= r.dcaCount && r.dcaCount + Pending(r) <= c.maxDcaCount
            && (cycles != [] ==> OrdersSent(c, cycles) == r.dcaCount - StartCount(c, cycles) + Pending(r))
            && OrdersSent(c, cycles) <= c.maxDcaCount - StartCount(c, cycles)
            && (StartCount(c, cycles) == c.maxDcaCount ==> OrdersSent(c, cycles) == 0)
  {
    if cycles != [] {
      RunInvariant(c, cycles);
    }
  }

  // The original quantity plus n further orders of that size.
  function PositionWith(original: real, n: int): real { original * (1 + n) as real }

  // In every cycle the position is the original one plus one original quantity per filled order,
  // and no more orders have filled than were recorded before.
  ghost predicate OnlyExactFills(c: Config, cycles: seq<Cycle>, fills: seq<nat>) {
    && |fills| == |cycles|
    && forall k | 0 <= k < |cycles| ::
         fills[k] <= OrdersSent(c, cycles[..k])
         && Abs(cycles[k].live.positionAmt) == PositionWith(OriginalQuantity(cycles), fills[k])
  }

  /** If only exact fills of recorded orders change it, the position never exceeds (1 + maxDcaCount) times its
      original quantity, and stays at the original quantity when it was recovered and may not be averaged down. */
  lemma PositionStaysBounded(c: Config, cycles: seq<Cycle>, fills: seq<nat>, k: nat)
    requires ValidConfig(c) && k < |cycles| && forall cy | cy in cycles :: cy.live.positionAmt != 0.0
    requires OnlyExactFills(c, cycles, fills)
    ensures Abs(cycles[k].live.positionAmt) <= PositionWith(OriginalQuantity(cycles), c.maxDcaCount)
    ensures StartCount(c, cycles) == c.maxDcaCount ==> Abs(cycles[k].live.positionAmt) == OriginalQuantity(cycles)
  {
    RunInvariant(c, cycles);
    FillsBounded(c, cycles, fills, k);
    ScaleUp(OriginalQuantity(cycles), fills[k], c.maxDcaCount);
  }

  lemma FillsBounded(c: Config, cycles: seq<Cycle>, fills: seq<nat>, k: nat)
    requires ValidConfig(c) && k < |cycles| && forall cy | cy in cycles :: cy.live.positionAmt != 0.0
    requires |fills| == |cycles| && fills[k] <= OrdersSent(c, cycles[..k])
    ensures fills[k] <= c.maxDcaCount && (StartCount(c, cycles) == c.maxDcaCount ==> fills[k] == 0)
  {
    OrdersAreAccountedFor(c, cycles[..k]);
    if k > 0 {
      assert cycles[..k][0] == cycles[0];
    }
  }

  lemma ScaleUp(q: real, a: int, b: int)
    requires q >= 0.0 && a <= b
    ensures PositionWith(q, a) <= PositionWith(q, b) && PositionWith(q, 0) == q
  {}

  // ----- Records and the positions they are applied to -----

  /** Over any run of evaluations, whichever positions follow one another on a symbol: its record never has more than maxDcaCount
      orders counted and pending, and the orders it recorded are its count gained plus what is pending. What the record starts
      from is decided by the position that was there when it was started. */
  lemma RecordsAreAccountedFor(c: Config, passes: seq<seq<Visit>>, symbol: string)
    requires ValidConfig(c) && (forall p | p in passes :: OnePerSymbol(p)) && symbol in ManagerAfter(c, passes)
    ensures var r, span := ManagerAfter(c, passes)[symbol], Span(passes, symbol);
            && span != [] && r.originalQuantity == OriginalQuantity(span) > 0.0
            && 0 <= r.dcaCount && r.dcaCount + Pending(r) <= c.maxDcaCount
            && OrdersSent(c, span) == r.dcaCount - StartCount(c, span) + Pending(r)
            && (StartCount(c, span) == c.maxDcaCount ==> OrdersSent(c, span) == 0)
  {
    RecordIsSpan(c, passes, symbol);
    SpanOnSide(passes, symbol);
    RunInvariant(c, Span(passes, symbol));
  }

  // A cycle only ever sees a position reported on the tracked side, so never a flat one.
  lemma {:induction false} SpanOnSide(passes: seq<seq<Visit>>, symbol: string)
    ensures forall cy | cy in Span(passes, symbol) :: cy.live.positionAmt != 0.0
  {
    if passes != [] {
      SpanOnSide(passes[..|passes| - 1], symbol);
      SeenOnSide(passes[|passes| - 1], symbol);
    }
  }

  lemma {:induction false} SeenOnSide(visits: seq<Visit>, symbol: string)
    ensures var e := EventIn(visits, symbol); e.Seen? ==> SameSide(e.cycle.live, e.cycle.tracked)
  {
    if visits != [] {
      SeenOnSide(visits[..|visits| - 1], symbol);
    }
  }

  predicate MayNotAverage(c: Config, t: TrackedPosition) { t.recoveredFromSnapshot && !c.allowDcaOnRecovered }

  /** A recovered position that may not be averaged down gets an order only on a record somebody else started: with the record of a
      position like itself, or none, it never does. */
  lemma RecoveredOrdersAreInherited(c: Config, cycles: seq<Cycle>, cy: Cycle)
    requires ValidConfig(c) && cy.live.positionAmt != 0.0 && forall e | e in cycles :: e.live.positionAmt != 0.0
    requires MayNotAverage(c, cy.tracked) && Orders(c, RecordAfter(c, cycles), cy)
    ensures cycles != [] && !MayNotAverage(c, cycles[0].tracked)
  {
    if cycles != [] {
      RunInvariant(c, cycles);
      OrdersAreAccountedFor(c, cycles + [cy]);
      assert (cycles + [cy])[..|cycles|] == cycles;
    }
  }

  // ----- When another order may come -----

  // The position has a side and a recorded stop, without which no order is sent.
  predicate CanTrade(t: TrackedPosition) { t.direction != NoDirection && (t.slOrderId > 0 || t.slClientOrderId != "") }

  // Some cycle, whatever the market and the ports do in it, records an order for the position.
  ghost predicate MayOrder(c: Config, r: Record, t: TrackedPosition) {
    exists cy: Cycle :: cy.tracked == t && SameSide(cy.live, t) && Orders(c, r, cy)
  }

  // A leverage at which the threshold is reached before the price is.
  function Leverage(c: Config): (n: int)
    requires c.roiDcaThreshold < 0.0
    ensures n >= 1 && n as real > -c.roiDcaThreshold
  {
    (-c.roiDcaThreshold).Floor + 1
  }

  // A position just down to the threshold, and ports that let its order through.
  function Losing(c: Config, t: TrackedPosition, quantity: real): Cycle
    requires c.roiDcaThreshold < 0.0
  {
    var move := c.roiDcaThreshold / Leverage(c) as real;
    Cycle(t, if t.direction == Short then Live(t.symbol, -quantity, 1.0, 1.0 - move, Leverage(c), true)
             else Live(t.symbol, quantity, 1.0, 1.0 + move, Leverage(c), true),
          Answers(0.0, true, true, true, true, true, 1, true, false))
  }

  lemma LosingAtThreshold(c: Config, t: TrackedPosition, quantity: real)
    requires ValidConfig(c) && quantity > EPSILON && t.direction != NoDirection
    ensures var p := Losing(c, t, quantity).live;
            CalcRoi(p) == c.roiDcaThreshold && p.markPrice > 0.0 && SameSide(p, t) && Abs(p.positionAmt) == quantity
  {
    Unscale(c.roiDcaThreshold, Leverage(c) as real);
  }

  lemma Unscale(x: real, n: real)
    requires n > 0.0 && x > -n
    ensures x / n * n == x && x / n > -1.0
  {
    var q := x / n;
    assert q * n == x;
    if q <= -1.0 {
      AtLeast(-q, n);
    }
  }

  lemma AtLeast(k: real, n: real)
    requires k >= 1.0 && n > 0.0
    ensures k * n >= n
  {
    assert (k - 1.0) * n >= 0.0;
  }

  /** A record with an order left allows one, pending or not: an order that is pending and shows as filled is counted, and the next
      one placed, in the same cycle. */
  lemma RecordMayOrder(c: Config, r: Record, t: TrackedPosition)
    requires ValidConfig(c) && r.originalQuantity > 0.0 && 0 <= r.dcaCount
    ensures MayOrder(c, r, t) <==> CanTrade(t) && r.dcaCount + Pending(r) < c.maxDcaCount
  {
    if CanTrade(t) && r.dcaCount + Pending(r) < c.maxDcaCount {
      var quantity := Abs(r.positionAmtBeforeDca) + r.originalQuantity + 1.0;
      var cy := Losing(c, t, quantity);
      LosingAtThreshold(c, t, quantity);
      assert Orders(c, r, cy);
    }
  }

  /** A record not started yet allows one unless the position that would start it may not be averaged down. */
  lemma NoRecordMayOrder(c: Config, t: TrackedPosition)
    requires ValidConfig(c)
    ensures MayOrder(c, FRESH, t) <==> CanTrade(t) && c.maxDcaCount > 0 && !MayNotAverage(c, t)
  {
    if CanTrade(t) && c.maxDcaCount > 0 && !MayNotAverage(c, t) {
      var cy := Losing(c, t, 1.0);
      LosingAtThreshold(c, t, 1.0);
      assert Orders(c, FRESH, cy);
    }
  }

  /** With an order left and none pending, an inherited record gives its order at its own starter's size. */
  lemma InheritorMayOrder(c: Config, cycles: seq<Cycle>, b: TrackedPosition, quantity: real)
    requires ValidConfig(c) && cycles != [] && forall e | e in cycles :: e.live.positionAmt != 0.0
    requires var r := RecordAfter(c, cycles); !r.dcaPending && r.dcaCount < c.maxDcaCount
    requires CanTrade(b) && quantity > EPSILON
    ensures var cy := Losing(c, b, quantity);
            && SameSide(cy.live, b) && Orders(c, RecordAfter(c, cycles), cy)
            && RecordAfter(c, cycles + [cy]).originalQuantity == OriginalQuantity(cycles)
  {
    RunInvariant(c, cycles);
    SpanGrows(c, cycles, Losing(c, b, quantity));
    LosingAtThreshold(c, b, quantity);
  }

  // ----- At which price -----

  // The loss has reached the threshold: the price is that far below the entry, at the position's leverage; for a short, above it.
  predicate LossReached(p: Live, threshold: real) {
    p.entryPrice > 0.0 && p.leverage > 0 && Abs(p.positionAmt) > EPSILON &&
    var l := p.leverage as real;
    if p.positionAmt > 0.0 then p.markPrice * l <= p.entryPrice * (l + threshold)
    else p.markPrice * l >= p.entryPrice * (l - threshold)
  }

  lemma RoiAtPrice(p: Live, threshold: real)
    requires threshold < 0.0
    ensures CalcRoi(p) <= threshold <==> LossReached(p, threshold)
  {
    if p.entryPrice > 0.0 && Abs(p.positionAmt) > EPSILON && p.leverage > 0 {
      ShareOfEntry(p.markPrice, p.entryPrice, p.leverage as real);
      BelowThreshold(CalcRoi(p), threshold, p.entryPrice);
    }
  }

  lemma ShareOfEntry(mark: real, entry: real, l: real)
    requires entry > 0.0
    ensures (mark - entry) / entry * l * entry == mark * l - entry * l
  {
    var share := (mark - entry) / entry;
    assert share * entry == mark - entry;
    assert share * l * entry == share * entry * l;
  }

  lemma BelowThreshold(roi: real, threshold: real, entry: real)
    requires entry > 0.0
    ensures roi <= threshold <==> roi * entry <= threshold * entry
  {
    ScaleOrder(entry, roi, threshold);
  }

  /** An order is recorded exactly when the record has one left and none pending, the price has fallen (risen, for a short) so far from
      the entry that the loss at the position's leverage reaches the threshold, and every gate lets it through. */
  lemma OrdersAtPrice(c: Config, r: Record, cy: Cycle)
    requires ValidConfig(c) && r.originalQuantity > 0.0 && !r.dcaPending
    ensures Orders(c, r, cy) <==>
              && r.dcaCount < c.maxDcaCount && c.maxDcaCount > 0 && LossReached(cy.live, c.roiDcaThreshold)
              && cy.answers.quantityRounds && cy.answers.capAllows && cy.answers.exposureAllows && cy.answers.trackedBeforeOrder
              && (cy.tracked.slOrderId > 0 || cy.tracked.slClientOrderId != "") && cy.answers.dcaAccepted && cy.answers.trackedAfterOrder
    ensures Orders(c, r, cy) ==> Process(c, r, cy).dcaPending
                                 && Process(c, r, cy).positionAmtBeforeDca == Abs(cy.live.positionAmt)
  {
    RoiAtPrice(cy.live, c.roiDcaThreshold);
  }

  /** Without an order, a cycle puts a break-even take-profit in place exactly when there is none, the loss reaches the break-even
      threshold and the exchange takes it; one there is stays exactly while price and size are those it was placed for. */
  lemma BreakEvenAtPrice(c: Config, r: Record, cy: Cycle)
    requires ValidConfig(c) && r.originalQuantity > 0.0 && !r.dcaPending && !Orders(c, r, cy)
    ensures var r', p := Process(c, r, cy), cy.live;
            var kept := r.beCurrent && NearEqual(r.beEntryPrice, p.entryPrice, 0.00000001)
                        && NearEqual(r.bePositionAmt, Abs(p.positionAmt), Tolerance(cy.answers.stepSize));
            && (r'.beCurrent <==> kept || (LossReached(p, c.roiBeThreshold) && cy.answers.takeProfitMoved))
            && (r'.beCurrent && !kept ==> r'.beEntryPrice == p.entryPrice && r'.bePositionAmt == Abs(p.positionAmt))
  {
    RoiAtPrice(cy.live, c.roiBeThreshold);
  }

  // The record the next evaluation of the symbol starts from.
  function RecordNow(c: Config, passes: seq<seq<Visit>>, symbol: string): Record {
    var r := Lookup(ManagerAfter(c, passes), symbol);
    if r.Some? then r.value else FRESH
  }

  // The span has orders left; without one, the next position starts it.
  predicate OrdersLeft(c: Config, span: seq<Cycle>, t: TrackedPosition) {
    if span == [] then c.maxDcaCount > 0 && !MayNotAverage(c, t)
    else StartCount(c, span) + OrdersSent(c, span) < c.maxDcaCount
  }

  /** After any run of evaluations, a position may get another order exactly when it can trade and the symbol's record, whoever
      started it, has orders left; without a record, when it may be averaged down at all. */
  lemma AnotherOrder(c: Config, passes: seq<seq<Visit>>, symbol: string, t: TrackedPosition)
    requires ValidConfig(c) && forall p | p in passes :: OnePerSymbol(p)
    ensures MayOrder(c, RecordNow(c, passes, symbol), t) <==> CanTrade(t) && OrdersLeft(c, Span(passes, symbol), t)
  {
    RecordIsSpan(c, passes, symbol);
    if Span(passes, symbol) == [] {
      NoRecordMayOrder(c, t);
    } else {
      RecordsAreAccountedFor(c, passes, symbol);
      RecordMayOrder(c, RecordNow(c, passes, symbol), t);
    }
  }

  /** So a recovered position that may not be averaged down gets an order exactly when its record was started by one that may, and has
      orders left. */
  lemma RecoveredMayOrder(c: Config, passes: seq<seq<Visit>>, symbol: string, t: TrackedPosition)
    requires ValidConfig(c) && (forall p | p in passes :: OnePerSymbol(p)) && MayNotAverage(c, t)
    ensures var span := Span(passes, symbol);
            MayOrder(c, RecordNow(c, passes, symbol), t) <==>
              CanTrade(t) && span != [] && !MayNotAverage(c, span[0].tracked) && OrdersSent(c, span) < c.maxDcaCount
  {
    AnotherOrder(c, passes, symbol, t);
  }

  // 1 if the cycle, on the record the earlier ones left, records an order for the position, else 0.
  function OrderTo(c: Config, earlier: seq<Cycle>, cy: Cycle, openedAt: int): nat {
    if cy.tracked.openedAt == openedAt && Orders(c, RecordAfter(c, earlier), cy) then 1 else 0
  }

  // What a cycle after others counts for.
  type Counting = (seq<Cycle>, Cycle) -> nat

  function CountIn(order: Counting, cycles: seq<Cycle>): nat {
    if cycles == [] then 0
    else CountIn(order, cycles[..|cycles| - 1]) + order(cycles[..|cycles| - 1], cycles[|cycles| - 1])
  }

  function CountTo(order: Counting, passes: seq<seq<Visit>>, symbol: string): nat {
    if passes == [] then 0
    else
      var front, e := passes[..|passes| - 1], EventIn(passes[|passes| - 1], symbol);
      CountTo(order, front, symbol) + if e.Seen? then order(Span(front, symbol), e.cycle) else 0
  }

  function OrdersOf(c: Config, openedAt: int): Counting { (earlier, cy) => OrderTo(c, earlier, cy, openedAt) }

  // The orders recorded for one position: over the whole run, and on the present record.
  function OrdersTo(c: Config, passes: seq<seq<Visit>>, symbol: string, openedAt: int): nat {
    CountTo(OrdersOf(c, openedAt), passes, symbol)
  }

  function OrdersIn(c: Config, cycles: seq<Cycle>, openedAt: int): nat { CountIn(OrdersOf(c, openedAt), cycles) }

  // How many records the symbol has had.
  function RecordsStarted(passes: seq<seq<Visit>>, symbol: string): nat {
    if passes == [] then 0
    else
      var front := passes[..|passes| - 1];
      RecordsStarted(front, symbol) + if EventIn(passes[|passes| - 1], symbol).Seen? && Span(front, symbol) == [] then 1 else 0
  }

  lemma {:induction false} OrdersInSent(c: Config, cycles: seq<Cycle>, openedAt: int)
    ensures OrdersIn(c, cycles, openedAt) <= OrdersSent(c, cycles)
    ensures (forall cy | cy in cycles :: cy.tracked.openedAt == openedAt) ==> OrdersIn(c, cycles, openedAt) == OrdersSent(c, cycles)
  {
    if cycles != [] {
      OrdersInSent(c, cycles[..|cycles| - 1], openedAt);
      assert cycles[|cycles| - 1] in cycles;
    }
  }

  lemma CountOneMore(order: Counting, span: seq<Cycle>, cy: Cycle)
    ensures CountIn(order, span + [cy]) == CountIn(order, span) + order(span, cy)
  {
    assert (span + [cy])[..|span|] == span;
  }

  // n times the maximum.
  function Fold(max: int, n: int): int { if n <= 0 then 0 else Fold(max, n - 1) + max }

  // Of the orders there were, those not on the present record were on earlier ones, at most the maximum each.
  predicate Ledgered(max: int, orders: nat, present: nat, records: nat, none: bool) {
    && present <= orders && (!none ==> records >= 1) && (none ==> present == 0)
    && orders - present <= Fold(max, if none then records else records - 1)
  }

  lemma DropRecord(max: int, orders: nat, present: nat, records: nat, none: bool)
    requires Ledgered(max, orders, present, records, none) && present <= max
    ensures Ledgered(max, orders, 0, records, true)
  {}

  lemma KeepRecord(max: int, orders: nat, present: nat, records: nat, none: bool, order: nat)
    requires Ledgered(max, orders, present, records, none)
    ensures Ledgered(max, orders + order, present + order, if none then records + 1 else records, false)
  {}

  // Of a count over the whole run, what is not on the present record was on earlier ones.
  predicate Balanced(order: Counting, passes: seq<seq<Visit>>, symbol: string, max: int) {
    var span := Span(passes, symbol);
    Ledgered(max, CountTo(order, passes, symbol), CountIn(order, span), RecordsStarted(passes, symbol), span == [])
  }

  lemma SeenCounts(order: Counting, front: seq<seq<Visit>>, visits: seq<Visit>, symbol: string)
    requires EventIn(visits, symbol).Seen?
    ensures var passes, span, cy := front + [visits], Span(front, symbol), EventIn(visits, symbol).cycle;
            && Span(passes, symbol) == span + [cy]
            && CountTo(order, passes, symbol) == CountTo(order, front, symbol) + order(span, cy)
            && RecordsStarted(passes, symbol) == if span == [] then RecordsStarted(front, symbol) + 1 else RecordsStarted(front, symbol)
  {
    assert (front + [visits])[..|front|] == front;
  }

  lemma SeenBalanced(order: Counting, front: seq<seq<Visit>>, visits: seq<Visit>, symbol: string, max: nat)
    requires Balanced(order, front, symbol, max) && EventIn(visits, symbol).Seen?
    ensures Balanced(order, front + [visits], symbol, max)
  {
    var span, cy := Span(front, symbol), EventIn(visits, symbol).cycle;
    SeenCounts(order, front, visits, symbol);
    CountOneMore(order, span, cy);
    KeepRecord(max, CountTo(order, front, symbol), CountIn(order, span), RecordsStarted(front, symbol), span == [], order(span, cy));
  }

  lemma UnseenCounts(order: Counting, front: seq<seq<Visit>>, visits: seq<Visit>, symbol: string)
    requires !EventIn(visits, symbol).Seen?
    ensures var passes := front + [visits];
            && Span(passes, symbol) == (if EventIn(visits, symbol).Gone? then [] else Span(front, symbol))
            && CountTo(order, passes, symbol) == CountTo(order, front, symbol)
            && RecordsStarted(passes, symbol) == RecordsStarted(front, symbol)
  {
    assert (front + [visits])[..|front|] == front;
  }

  lemma UnseenBalanced(order: Counting, front: seq<seq<Visit>>, visits: seq<Visit>, symbol: string, max: nat)
    requires Balanced(order, front, symbol, max) && CountIn(order, Span(front, symbol)) <= max && !EventIn(visits, symbol).Seen?
    ensures Balanced(order, front + [visits], symbol, max)
  {
    var span := Span(front, symbol);
    UnseenCounts(order, front, visits, symbol);
    DropRecord(max, CountTo(order, front, symbol), CountIn(order, span), RecordsStarted(front, symbol), span == []);
  }

  lemma {:induction false} EarlierCounts(order: Counting, passes: seq<seq<Visit>>, symbol: string, max: nat)
    requires forall k | 0 <= k <= |passes| :: CountIn(order, Span(passes[..k], symbol)) <= max
    ensures Balanced(order, passes, symbol, max)
  {
    if passes != [] {
      var front, visits := passes[..|passes| - 1], passes[|passes| - 1];
      forall k | 0 <= k <= |front| ensures CountIn(order, Span(front[..k], symbol)) <= max {
        assert front[..k] == passes[..k];
      }
      EarlierCounts(order, front, symbol, max);
      assert front[..|front|] == front && passes == front + [visits];
      if EventIn(visits, symbol).Seen? {
        SeenBalanced(order, front, visits, symbol, max);
      } else {
        UnseenBalanced(order, front, visits, symbol, max);
      }
    }
  }

  lemma EarlierRecords(c: Config, passes: seq<seq<Visit>>, symbol: string, openedAt: int)
    requires ValidConfig(c)
    ensures var span := Span(passes, symbol);
            Ledgered(c.maxDcaCount, OrdersTo(c, passes, symbol, openedAt), OrdersIn(c, span, openedAt),
                     RecordsStarted(passes, symbol), span == [])
  {
    var order := OrdersOf(c, openedAt);
    forall k | 0 <= k <= |passes| ensures CountIn(order, Span(passes[..k], symbol)) <= c.maxDcaCount {
      PresentBounded(c, passes[..k], symbol, openedAt);
    }
    EarlierCounts(order, passes, symbol, c.maxDcaCount);
  }

  lemma PresentBounded(c: Config, passes: seq<seq<Visit>>, symbol: string, openedAt: int)
    requires ValidConfig(c)
    ensures OrdersIn(c, Span(passes, symbol), openedAt) <= c.maxDcaCount
  {
    SpanOnSide(passes, symbol);
    OrdersAreAccountedFor(c, Span(passes, symbol));
    OrdersInSent(c, Span(passes, symbol), openedAt);
  }

  /** Over any run a position gets at most maxDcaCount orders on each record its symbol has had. */
  lemma OrdersPerRecord(c: Config, passes: seq<seq<Visit>>, symbol: string, openedAt: int)
    requires ValidConfig(c)
    ensures OrdersTo(c, passes, symbol, openedAt) <= Fold(c.maxDcaCount, RecordsStarted(passes, symbol))
  {
    var span := Span(passes, symbol);
    EarlierRecords(c, passes, symbol, openedAt);
    PresentBounded(c, passes, symbol, openedAt);
    DropRecord(c.maxDcaCount, OrdersTo(c, passes, symbol, openedAt), OrdersIn(c, span, openedAt), RecordsStarted(passes, symbol), span == []);
  }

  /** A position that has had its maximum may get another order exactly when it can trade and its present record does not hold all of
      them, that is, when an earlier record was dropped with orders of its own. */
  lemma MaximumIsPassed(c: Config, passes: seq<seq<Visit>>, symbol: string, t: TrackedPosition)
    requires ValidConfig(c) && (forall p | p in passes :: OnePerSymbol(p)) && !MayNotAverage(c, t) && c.maxDcaCount > 0
    requires forall cy | cy in Span(passes, symbol) :: cy.tracked.openedAt == t.openedAt && !MayNotAverage(c, cy.tracked)
    requires OrdersTo(c, passes, symbol, t.openedAt) == c.maxDcaCount
    ensures MayOrder(c, RecordNow(c, passes, symbol), t) <==>
              CanTrade(t) && OrdersIn(c, Span(passes, symbol), t.openedAt) < OrdersTo(c, passes, symbol, t.openedAt)
    ensures MayOrder(c, RecordNow(c, passes, symbol), t) && Span(passes, symbol) != [] ==> RecordsStarted(passes, symbol) >= 2
  {
    var span := Span(passes, symbol);
    AnotherOrder(c, passes, symbol, t);
    OrdersInSent(c, span, t.openedAt);
    EarlierRecords(c, passes, symbol, t.openedAt);
    if span != [] {
      assert span[0] in span;
    }
  }

  // ----- Runs in which it does -----

  const ONE_ORDER := Config(-0.1, -0.5, 1, 0.0, false, 3)

  function Incarnation(openedAt: int, recovered: bool, quantity: real): TrackedPosition {
    TrackedPosition("S", Long, openedAt, 0, 1.0, quantity, 1, 0, 1, "", "", 0.0, 0, false, recovered)
  }

  function Quiet(t: TrackedPosition): Visit {
    Visit(t, Some(Live(t.symbol, t.quantity, 1.0, 1.0, 1, true)), true, Answers(0.0, true, true, true, true, true, 1, true, false))
  }

  function AtALoss(t: TrackedPosition): Visit {
    var cy := Losing(ONE_ORDER, t, t.quantity);
    Visit(t, Some(cy.live), true, cy.answers)
  }

  function Unreported(t: TrackedPosition): Visit { Visit(t, None, true, Quiet(t).answers) }

  // The record after one more evaluation in which the symbol is the only one tracked, or none is.
  lemma OneVisit(c: Config, passes: seq<seq<Visit>>, v: Visit)
    ensures Lookup(ManagerAfter(c, passes + [[v]]), v.tracked.symbol)
              == AfterEvent(c, Lookup(ManagerAfter(c, passes), v.tracked.symbol), EventOf(v))
  {
    assert (passes + [[v]])[..|passes|] == passes;
    var before, sym := ManagerAfter(c, passes), v.tracked.symbol;
    assert [v][|[v]| - 1] == v && v in [v] && sym in Symbols([v]);
    var kept := map s | s in before && s in Symbols([v]) :: before[s];
    VisitsOnce(c, kept, [v], sym);
    assert Lookup(kept, sym) == Lookup(before, sym);
  }

  lemma NoVisit(c: Config, passes: seq<seq<Visit>>, symbol: string)
    ensures Lookup(ManagerAfter(c, passes + [[]]), symbol) == None
  {
    assert (passes + [[]])[..|passes|] == passes;
  }

  lemma QuietRecord(t: TrackedPosition)
    requires t == Incarnation(t.openedAt, false, t.quantity) && t.quantity > EPSILON
    ensures AfterEvent(ONE_ORDER, None, EventOf(Quiet(t))) == Some(FRESH.(originalQuantity := t.quantity))
  {
    assert CalcRoi(Quiet(t).live.value) == 0.0;
  }

  // At a loss the one order is placed, at the size the record started with, unless it was used up from the start.
  lemma LossRecord(t: TrackedPosition, r: Option<Record>)
    requires t == Incarnation(t.openedAt, t.recoveredFromSnapshot, t.quantity) && t.quantity > EPSILON
    requires r.None? || (r.value == FRESH.(originalQuantity := r.value.originalQuantity) && r.value.originalQuantity > 0.0)
    ensures var r' := AfterEvent(ONE_ORDER, r, EventOf(AtALoss(t)));
            && r'.Some? && r'.value.originalQuantity == (if r.Some? then r.value.originalQuantity else t.quantity)
            && (r'.value.dcaPending <==> r.Some? || !t.recoveredFromSnapshot)
            && (r'.value.dcaPending ==> r'.value.positionAmtBeforeDca == t.quantity)
  {
    assert CalcRoi(AtALoss(t).live.value) == -0.5;
  }

  /** A position of 10 goes between two evaluations and one of 1 is recovered in its place: the record stays, and an order of 10 is
      recorded for a recovered position that may not be averaged down. With one evaluation in between there is none. */
  lemma ReopenedInheritsRecord()
    ensures var a, b := Incarnation(1, false, 10.0), Incarnation(2, true, 1.0);
            var r := Lookup(ManagerAfter(ONE_ORDER, [] + [[Quiet(a)]] + [[AtALoss(b)]]), "S");
            var r' := Lookup(ManagerAfter(ONE_ORDER, [] + [[Quiet(a)]] + [[]] + [[AtALoss(b)]]), "S");
            && MayNotAverage(ONE_ORDER, b)
            && r.Some? && r.value.dcaPending && r.value.originalQuantity == 10.0 && r.value.positionAmtBeforeDca == 1.0
            && r'.Some? && !r'.value.dcaPending && r'.value.originalQuantity == 1.0
  {
    var c, a, b := ONE_ORDER, Incarnation(1, false, 10.0), Incarnation(2, true, 1.0);
    OneVisit(c, [], Quiet(a));
    QuietRecord(a);
    OneVisit(c, [] + [[Quiet(a)]], AtALoss(b));
    LossRecord(b, Some(FRESH.(originalQuantity := 10.0)));
    NoVisit(c, [] + [[Quiet(a)]], "S");
    OneVisit(c, [] + [[Quiet(a)]] + [[]], AtALoss(b));
    LossRecord(b, None);
  }

  /** A tracked position that one snapshot does not report loses its record, and with it the count: the one order allowed is placed
      twice. */
  lemma UnreportedForgetsCount(quantity: real)
    requires quantity > EPSILON
    ensures var a := Incarnation(1, false, quantity);
            var first := Lookup(ManagerAfter(ONE_ORDER, [] + [[AtALoss(a)]]), "S");
            var second := Lookup(ManagerAfter(ONE_ORDER, [] + [[AtALoss(a)]] + [[Unreported(a)]] + [[AtALoss(a)]]), "S");
            first.Some? && first.value.dcaPending && second.Some? && second.value.dcaPending
            && Lookup(ManagerAfter(ONE_ORDER, [] + [[AtALoss(a)]] + [[Unreported(a)]]), "S") == None
  {
    var c, a := ONE_ORDER, Incarnation(1, false, quantity);
    OneVisit(c, [], AtALoss(a));
    LossRecord(a, None);
    OneVisit(c, [] + [[AtALoss(a)]], Unreported(a));
    OneVisit(c, [] + [[AtALoss(a)]] + [[Unreported(a)]], AtALoss(a));
  }

  // The first cycle about the position of cycle k.
  function FirstOf(cycles: seq<Cycle>, openedAt: int): (i: nat)
    requires exists k :: 0 <= k < |cycles| && cycles[k].tracked.openedAt == openedAt
    ensures i < |cycles| && cycles[i].tracked.openedAt == openedAt
  {
    if cycles[0].tracked.openedAt == openedAt then 0 else 1 + FirstOf(cycles[1..], openedAt)
  }

  // The size of the position of cycle k when the record first met it.
  function Met(cycles: seq<Cycle>, k: nat): real
    requires k < |cycles|
  {
    Abs(cycles[FirstOf(cycles, cycles[k].tracked.openedAt)].live.positionAmt)
  }

  // Every position is as the record first met it, plus the record's original quantity for each order filled since.
  ghost predicate OnlyRecordedFills(c: Config, cycles: seq<Cycle>, fills: seq<nat>) {
    && |fills| == |cycles|
    && forall k | 0 <= k < |cycles| ::
         fills[k] <= OrdersSent(c, cycles[..k])
         && Abs(cycles[k].live.positionAmt) == Met(cycles, k) + Times(fills[k], OriginalQuantity(cycles))
  }

  function Times(n: int, q: real): real { n as real * q }

  /** If only fills of recorded orders change it, a position on whatever record exceeds the size it was met at by at most maxDcaCount
      times the record's original quantity. That is within (1 + maxDcaCount) times its own size exactly when no order may be placed at
      all or the record's original quantity is at most its own size, as it is for the position that started the record unless it was
      tracked as larger than reported. */
  lemma PositionOnAnyRecord(c: Config, cycles: seq<Cycle>, fills: seq<nat>, k: nat)
    requires ValidConfig(c) && k < |cycles| && forall cy | cy in cycles :: cy.live.positionAmt != 0.0
    requires OnlyRecordedFills(c, cycles, fills)
    ensures Abs(cycles[k].live.positionAmt) <= Met(cycles, k) + Times(c.maxDcaCount, OriginalQuantity(cycles))
    ensures StartCount(c, cycles) == c.maxDcaCount ==> Abs(cycles[k].live.positionAmt) == Met(cycles, k)
    ensures Met(cycles, k) + Times(c.maxDcaCount, OriginalQuantity(cycles)) <= PositionWith(Met(cycles, k), c.maxDcaCount)
            <==> c.maxDcaCount == 0 || OriginalQuantity(cycles) <= Met(cycles, k)
    ensures cycles[k].tracked.openedAt == cycles[0].tracked.openedAt && cycles[0].tracked.quantity <= Abs(cycles[0].live.positionAmt) ==>
              Abs(cycles[k].live.positionAmt) <= PositionWith(Met(cycles, k), c.maxDcaCount)
  {
    assert cycles[0] in cycles;
    RunInvariant(c, cycles);
    FillsBounded(c, cycles, fills, k);
    var q := OriginalQuantity(cycles);
    TimesGrows(fills[k], c.maxDcaCount, q);
    OwnShare(Met(cycles, k), c.maxDcaCount, q);
  }

  lemma TimesGrows(a: int, b: int, q: real)
    requires a <= b && q > 0.0
    ensures Times(a, q) <= Times(b, q) && Times(0, q) == 0.0
  {}

  lemma OwnShare(m: real, n: nat, q: real)
    ensures m + Times(n, q) <= PositionWith(m, n) <==> n == 0 || q <= m
  {
    WithShare(m, n);
    TimesOrder(n, q, m);
  }

  lemma WithShare(m: real, n: int)
    ensures PositionWith(m, n) == m + Times(n, m)
  {
    assert (1 + n) as real == 1.0 + n as real;
  }

  lemma TimesOrder(n: nat, a: real, b: real)
    ensures Times(n, a) <= Times(n, b) <==> n == 0 || a <= b
  {
    if n > 0 {
      ScaleOrder(n as real, a, b);
    }
  }

  lemma ScaleOrder(n: real, a: real, b: real)
    requires n > 0.0
    ensures n * a <= n * b <==> a <= b
  {
    if a > b {
      assert n * (a - b) > 0.0;
    } else {
      assert n * (b - a) >= 0.0;
    }
  }

  /** While an order is pending no other is recorded until its fill shows, and until then the record only ages. */
  lemma PendingBlocks(c: Config, r: Record, cy: Cycle)
    requires r.dcaPending && r.originalQuantity > 0.0
    requires !DcaFilled(r, Abs(cy.live.positionAmt), Tolerance(cy.answers.stepSize))
    ensures !Orders(c, r, cy) && Process(c, r, cy).(dcaPendingCycles := 0) == r.(dcaPendingCycles := 0)
    ensures Process(c, r, cy).dcaPendingCycles <= if r.dcaPendingCycles <= c.pendingTimeoutCycles then c.pendingTimeoutCycles + 1 else r.dcaPendingCycles
  {}
}
