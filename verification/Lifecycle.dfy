/** Opening a position as an interleaved protocol over the tracker
    (src/engine/signal_engine.cpp: openPositionFromPreflight, against every other user of the tracker).
    Every tracker call is one atomic step, every awaited port call ends with an arbitrary answer, and
    any number of openings run at once. */
module Lifecycle {
  import opened Common
  import opened TrackerSpec
  import Planner = ExecutionPlanner

  // Where an opening is suspended, or how it ended.
  datatype Stage =
    | SettingLeverage
    | PlacingMarket
    | LearningFill(attempt: nat)
    | PlacingTakeProfit
    | PlacingStop
    | CancellingTakeProfit
    | Closing
    | VerifyingFlat
    | Committing
    | CommittingEmergency
    | Ended(how: Ending)

  // PartlySent: the entry is dropped although the planner had slices accepted before it stopped.
  datatype Ending = AlreadyTracked | NothingOpened | PartlySent(slices: nat) | VerifiedFlat | NowTracked | EmergencyTracked | CommitLost

  // accepted: the market order was accepted; tpPlaced: a take-profit was, and has not been asked to be cancelled; tpClientOrderId and slClientOrderId: ids generated so far.
  datatype Opening = Opening(symbol: string, stamp: int, accepted: bool, tpPlaced: bool,
                             tpClientOrderId: string, slClientOrderId: string, stage: Stage)

  // The answer an opening is resumed with.
  datatype Answer =
    | Leverage(ok: bool)
    | Market(accepted: bool)
    | Planned(outcome: Planner.Outcome, nativeAccepted: bool)
    | Fill(known: bool)
    | TakeProfitNotWanted
    | TakeProfitPriceInvalid
    | TakeProfit(clientOrderId: string, accepted: bool)
    | StopNotWanted
    | StopPriceInvalid
    | Stop(clientOrderId: string, accepted: bool)
    | TakeProfitCancelled
    | Close(accepted: bool)
    | LiveQuantity(flat: bool)
    | Commit(pos: TrackedPosition)

  // Calls the other actors make: reconciliation, expiry, trailing, loss manager, take-profit reconciler, user events.
  datatype Call =
    | Observe
    | RemoveStale(symbol: string, openedAt: int)
    | Recover(pos: TrackedPosition)
    | Amend(symbol: string, update: Update)
    | PartialExit(symbol: string, clientOrderId: string, quantity: real)
    | FullExit(symbol: string, clientOrderId: string)

  datatype Action =
    | Open(id: nat, symbol: string)
    | Resume(id: nat, answer: Answer)
    | Other(call: Call)

  // seen: the (symbol, openedAt) pairs some actor may hold from an earlier look at settled entries.
  datatype State = State(tracker: Positions, clock: int, openings: map<nat, Opening>, seen: set<(string, int)>)

  const FILL_ATTEMPTS := 3

  // Opening on stamp 0 would make a recovered entry draw a second stamp.
  const Init := State(map[], 1, map[], {})

  // ----- One step -----

  function StartOpening(s: State, id: nat, symbol: string): State {
    if id in s.openings then s
    else if CanReserve(s.tracker, symbol) then
      s.(tracker := Reserve(s.tracker, symbol, s.clock), clock := s.clock + 1,
         openings := s.openings[id := Opening(symbol, s.clock, false, false, "", "", SettingLeverage)])
    else s.(openings := s.openings[id := Opening(symbol, 0, false, false, "", "", Ended(AlreadyTracked))])
  }

  function With(s: State, id: nat, o: Opening): State { s.(openings := s.openings[id := o]) }

  function RemoveAndEnd(s: State, id: nat, o: Opening, how: Ending): State {
    With(s.(tracker := s.tracker - {o.symbol}), id, o.(stage := Ended(how)))
  }

  // The committed entry carries the symbol and the ids the opening generated, and a fresh stamp.
  function CommitAndEnd(s: State, id: nat, o: Opening, pos: TrackedPosition, how: Ending): State {
    if CanCommit(s.tracker, o.symbol) then
      var entry := pos.(symbol := o.symbol, openedAt := s.clock,
                        tpClientOrderId := o.tpClientOrderId, slClientOrderId := o.slClientOrderId);
      With(s.(tracker := CommitReserved(s.tracker, o.symbol, entry), clock := s.clock + 1), id, o.(stage := Ended(how)))
    else RemoveAndEnd(s, id, o, CommitLost)
  }

  // A leg failed: a placed take-profit is cancelled first, then the position is closed.
  function Unwind(o: Opening): Opening { o.(stage := if o.tpPlaced then CancellingTakeProfit else Closing) }

  // With a planner the order counts as accepted when all slices went through, or its full-size fallback order was.
  predicate PlanAccepted(outcome: Planner.Outcome, nativeAccepted: bool) {
    outcome.Done? || (outcome.Native? && nativeAccepted)
  }

  // Any other outcome is an error, and the reservation goes whatever was sent before.
  function PlanEnding(outcome: Planner.Outcome): Ending {
    if outcome.Stopped? && outcome.slice >= 1 then PartlySent(outcome.slice) else NothingOpened
  }

  // What an opening does with an answer; an answer that does not fit its stage is ignored.
  datatype Move =
    | Ignore
    | Advance(next: Opening)
    | Remove(how: Ending)
    | TryCommit(pos: TrackedPosition, how: Ending)

  function Decide(o: Opening, a: Answer): Move {
    match (o.stage, a)
    case (SettingLeverage, Leverage(ok)) =>
      if ok then Advance(o.(stage := PlacingMarket)) else Remove(NothingOpened)
    case (PlacingMarket, Market(accepted)) =>
      if accepted then Advance(o.(accepted := true, stage := LearningFill(0))) else Remove(NothingOpened)
    case (PlacingMarket, Planned(outcome, nativeAccepted)) =>
      if PlanAccepted(outcome, nativeAccepted) then Advance(o.(accepted := true, stage := LearningFill(0)))
      else Remove(PlanEnding(outcome))
    case (LearningFill(n), Fill(known)) =>
      Advance(o.(stage := if known || n + 1 >= FILL_ATTEMPTS then PlacingTakeProfit else LearningFill(n + 1)))
    case (PlacingTakeProfit, TakeProfitNotWanted) => Advance(o.(stage := PlacingStop))
    case (PlacingTakeProfit, TakeProfitPriceInvalid) => Advance(o.(stage := Closing))
    case (PlacingTakeProfit, TakeProfit(client, accepted)) =>
      Advance(o.(tpClientOrderId := client, tpPlaced := accepted, stage := if accepted then PlacingStop else Closing))
    case (PlacingStop, StopNotWanted) => Advance(o.(stage := Committing))
    case (PlacingStop, StopPriceInvalid) => Advance(Unwind(o))
    case (PlacingStop, Stop(client, accepted)) =>
      var o' := o.(slClientOrderId := client);
      Advance(if accepted then o'.(stage := Committing) else Unwind(o'))
    case (CancellingTakeProfit, TakeProfitCancelled) => Advance(o.(tpPlaced := false, stage := Closing))
    case (Closing, Close(accepted)) => Advance(o.(stage := if accepted then VerifyingFlat else CommittingEmergency))
    case (VerifyingFlat, LiveQuantity(flat)) =>
      if flat then Remove(VerifiedFlat) else Advance(o.(stage := CommittingEmergency))
    case (Committing, Commit(pos)) => TryCommit(pos, NowTracked)
    case (CommittingEmergency, Commit(pos)) => TryCommit(pos, EmergencyTracked)
    case _ => Ignore
  }

  function ResumeOpening(s: State, id: nat, a: Answer): State {
    if id !in s.openings then s
    else
      var o := s.openings[id];
      match Decide(o, a)
      case Ignore => s
      case Advance(next) => With(s, id, next)
      case Remove(how) => RemoveAndEnd(s, id, o, how)
      case TryCommit(pos, how) => CommitAndEnd(s, id, o, pos, how)
  }

  function Settled(m: Positions): set<(string, int)> {
    set sym | sym in m && !m[sym].openingInFlight :: (sym, m[sym].openedAt)
  }

  function Perform(s: State, c: Call): State {
    match c
    case Observe => s.(seen := s.seen + Settled(s.tracker))
    case RemoveStale(symbol, openedAt) =>
      if (symbol, openedAt) in s.seen then s.(tracker := RemoveIfOpenedAt(s.tracker, symbol, openedAt)) else s
    case Recover(pos) => s.(tracker := AddRecovered(s.tracker, pos.(openedAt := s.clock), s.clock), clock := s.clock + 1)
    case Amend(symbol, u) => s.(tracker := Apply(s.tracker, symbol, u))
    case PartialExit(symbol, client, qty) =>
      if client != "" && qty > 0.0 && symbol in s.tracker && IsExitOrder(s.tracker[symbol], client) then
        s.(tracker := ExitFill(s.tracker, symbol, qty))
      else s
    case FullExit(symbol, client) =>
      if client != "" && symbol in s.tracker && IsExitOrder(s.tracker[symbol], client) then
        s.(tracker := ExitFilled(s.tracker, symbol))
      else s
  }

  function Step(s: State, a: Action): State {
    match a
    case Open(id, symbol) => StartOpening(s, id, symbol)
    case Resume(id, answer) => ResumeOpening(s, id, answer)
    case Other(call) => Perform(s, call)
  }

  function Exec(actions: seq<Action>): State {
    if actions == [] then Init else Step(Exec(actions[..|actions| - 1]), actions[|actions| - 1])
  }

  // ----- The invariant -----

  predicate Holding(o: Opening) { !o.stage.Ended? }

  ghost predicate Holds(s: State, id: nat) {
    id in s.openings && Holding(s.openings[id])
  }

  // Every running opening owns the in-flight entry of its symbol.
  ghost predicate Owned(s: State) {
    forall id | Holds(s, id) ::
      var o := s.openings[id];
      o.symbol in s.tracker && s.tracker[o.symbol].openingInFlight && s.tracker[o.symbol].openedAt == o.stamp
  }

  ghost predicate OwnedBy(s: State, sym: string, id: nat) { Holds(s, id) && s.openings[id].symbol == sym }

  // Every in-flight entry has an owner, and no two openings own one.
  ghost predicate NoLeak(s: State) {
    forall sym | sym in s.tracker && s.tracker[sym].openingInFlight :: exists id :: OwnedBy(s, sym, id)
  }

  ghost predicate Exclusive(s: State) {
    forall i, j | Holds(s, i) && Holds(s, j) && i != j :: s.openings[i].symbol != s.openings[j].symbol
  }

  // Stamps are drawn in order, and nobody holds the stamp of an entry still being opened.
  ghost predicate Stamped(s: State) {
    && s.clock >= 1
    && (forall sym | sym in s.tracker :: s.tracker[sym].openedAt < s.clock)
    && (forall sym, t | (sym, t) in s.seen :: t < s.clock)
    && (forall sym | sym in s.tracker && s.tracker[sym].openingInFlight :: (sym, s.tracker[sym].openedAt) !in s.seen)
  }

  // How an opening may have ended, given whether its market order was accepted.
  ghost predicate EndedWell(s: State) {
    forall id | id in s.openings && s.openings[id].stage.Ended? ::
      var o := s.openings[id];
      if o.accepted then o.stage.how in {VerifiedFlat, NowTracked, EmergencyTracked}
      else o.stage.how in {AlreadyTracked, NothingOpened} || o.stage.how.PartlySent?
  }

  // The order is accepted exactly past the market stage.
  ghost predicate Progressed(s: State) {
    forall id | Holds(s, id) :: s.openings[id].accepted <==> PastMarket(s.openings[id].stage)
  }

  ghost predicate Reserved(s: State) { Owned(s) && NoLeak(s) && Exclusive(s) }

  ghost predicate Inv(s: State) {
    Keyed(s.tracker) && Reserved(s) && Stamped(s) && EndedWell(s) && Progressed(s)
  }

  lemma OpenKeepsInv(s: State, id: nat, symbol: string)
    requires Inv(s)
    ensures Inv(StartOpening(s, id, symbol))
  {
    if id !in s.openings && CanReserve(s.tracker, symbol) {
      OpenKeepsReserved(s, id, symbol);
    } else {
      OpenRefused(s, id, symbol);
    }
  }

  lemma OpenRefused(s: State, id: nat, symbol: string)
    requires Inv(s) && (id in s.openings || !CanReserve(s.tracker, symbol))
    ensures Inv(StartOpening(s, id, symbol))
  {
    var s' := StartOpening(s, id, symbol);
    forall sym | sym in s'.tracker && s'.tracker[sym].openingInFlight ensures exists i :: OwnedBy(s', sym, i) {
      var i :| OwnedBy(s, sym, i);
      assert OwnedBy(s', sym, i);
    }
  }

  lemma OpenKeepsReserved(s: State, id: nat, symbol: string)
    requires Inv(s) && id !in s.openings && CanReserve(s.tracker, symbol)
    ensures Reserved(StartOpening(s, id, symbol))
  {
    var s' := StartOpening(s, id, symbol);
    forall sym | sym in s'.tracker && s'.tracker[sym].openingInFlight ensures exists i :: OwnedBy(s', sym, i) {
      if sym == symbol {
        assert OwnedBy(s', sym, id);
      } else {
        var i :| OwnedBy(s, sym, i);
        assert OwnedBy(s', sym, i);
      }
    }
    forall i | Holds(s', i) && i != id ensures s'.openings[i] == s.openings[i] && s.openings[i].symbol in s.tracker {
      assert Holds(s, i);
    }
  }

  lemma AdvanceKeepsInv(s: State, id: nat, o: Opening)
    requires Inv(s) && Holds(s, id) && Holding(o)
    requires o.symbol == s.openings[id].symbol && o.stamp == s.openings[id].stamp
    requires o.accepted <==> PastMarket(o.stage)
    ensures Inv(With(s, id, o))
  {
    var s' := With(s, id, o);
    forall sym | sym in s'.tracker && s'.tracker[sym].openingInFlight ensures exists i :: OwnedBy(s', sym, i) {
      var i :| OwnedBy(s, sym, i);
      assert OwnedBy(s', sym, i);
    }
  }

  lemma RemoveKeepsReserved(s: State, id: nat, how: Ending)
    requires Keyed(s.tracker) && Reserved(s) && Holds(s, id)
    ensures Reserved(RemoveAndEnd(s, id, s.openings[id], how))
  {
    var o := s.openings[id];
    var s' := RemoveAndEnd(s, id, o, how);
    forall sym | sym in s'.tracker && s'.tracker[sym].openingInFlight ensures exists i :: OwnedBy(s', sym, i) {
      var i :| OwnedBy(s, sym, i);
      assert OwnedBy(s', sym, i);
    }
    forall i | Holds(s', i) ensures s'.openings[i].symbol != o.symbol {
      assert Holds(s, i);
    }
  }

  lemma RemoveKeepsInv(s: State, id: nat, how: Ending)
    requires Inv(s) && Holds(s, id)
    requires if s.openings[id].accepted then how == VerifiedFlat else how == NothingOpened || how.PartlySent?
    ensures Inv(RemoveAndEnd(s, id, s.openings[id], how))
  {
    RemoveKeepsReserved(s, id, how);
    RemoveKeepsProgress(s, id, how);
  }

  lemma RemoveKeepsProgress(s: State, id: nat, how: Ending)
    requires Inv(s) && Holds(s, id)
    requires if s.openings[id].accepted then how == VerifiedFlat else how == NothingOpened || how.PartlySent?
    ensures var s' := RemoveAndEnd(s, id, s.openings[id], how);
            Keyed(s'.tracker) && Stamped(s') && EndedWell(s') && Progressed(s')
  {
    var s' := RemoveAndEnd(s, id, s.openings[id], how);
    forall i | Holds(s', i) ensures s'.openings[i] == s.openings[i] {
      assert Holds(s, i);
    }
  }

  lemma CommitKeepsInv(s: State, id: nat, pos: TrackedPosition, how: Ending)
    requires Inv(s) && Holds(s, id) && s.openings[id].accepted && how in {NowTracked, EmergencyTracked}
    ensures Inv(CommitAndEnd(s, id, s.openings[id], pos, how))
  {
    var o := s.openings[id];
    var s' := CommitAndEnd(s, id, o, pos, how);
    forall sym | sym in s'.tracker && s'.tracker[sym].openingInFlight ensures exists i :: OwnedBy(s', sym, i) {
      var i :| OwnedBy(s, sym, i);
      assert OwnedBy(s', sym, i);
    }
    forall i | Holds(s', i) ensures s'.openings[i].symbol != o.symbol {
      assert Holds(s, i);
    }
  }

  predicate PastMarket(stage: Stage) { !stage.SettingLeverage? && !stage.PlacingMarket? && !stage.Ended? }

  // Which moves an opening in progress can make.
  lemma MovesFit(o: Opening, a: Answer)
    requires Holding(o) && (o.accepted <==> PastMarket(o.stage))
    ensures match Decide(o, a)
            case Ignore => true
            case Advance(next) =>
              Holding(next) && next.symbol == o.symbol && next.stamp == o.stamp && (next.accepted <==> PastMarket(next.stage))
            case Remove(how) =>
              if o.accepted then how == VerifiedFlat && a == LiveQuantity(true)
              else how == NothingOpened || (how.PartlySent? && a.Planned? && how == PlanEnding(a.outcome))
            case TryCommit(_, how) => o.accepted && how in {NowTracked, EmergencyTracked}
  {}

  lemma ResumeKeepsInv(s: State, id: nat, a: Answer)
    requires Inv(s)
    ensures Inv(ResumeOpening(s, id, a))
  {
    if Holds(s, id) {
      var o := s.openings[id];
      MovesFit(o, a);
      match Decide(o, a)
      case Ignore =>
      case Advance(next) => AdvanceKeepsInv(s, id, next);
      case Remove(how) => RemoveKeepsInv(s, id, how);
      case TryCommit(pos, how) => CommitKeepsInv(s, id, pos, how);
    }
  }

  // What a call by another actor can do to one entry that is being opened: nothing.
  lemma CallLeavesReserved(s: State, c: Call, sym: string)
    requires Inv(s) && sym in s.tracker && s.tracker[sym].openingInFlight
    ensures sym in Perform(s, c).tracker && Perform(s, c).tracker[sym] == s.tracker[sym]
  {}

  lemma CallKeepsStamps(s: State, c: Call)
    requires Keyed(s.tracker) && Stamped(s)
    ensures Stamped(Perform(s, c))
  {}

  lemma CallKeepsKeys(s: State, c: Call)
    requires Keyed(s.tracker)
    ensures Keyed(Perform(s, c).tracker)
    ensures forall sym | sym in Perform(s, c).tracker && Perform(s, c).tracker[sym].openingInFlight :: CanCommit(s.tracker, sym)
  {}

  // Openings untouched and in-flight entries the same: reservations stay as they were.
  lemma FrameKeepsReserved(s: State, s': State)
    requires Reserved(s) && s'.openings == s.openings
    requires forall sym | CanCommit(s.tracker, sym) :: sym in s'.tracker && s'.tracker[sym] == s.tracker[sym]
    requires forall sym | CanCommit(s'.tracker, sym) :: CanCommit(s.tracker, sym)
    ensures Reserved(s')
  {
    forall sym | sym in s'.tracker && s'.tracker[sym].openingInFlight ensures exists i :: OwnedBy(s', sym, i) {
      assert CanCommit(s'.tracker, sym);
      var i :| OwnedBy(s, sym, i);
      assert OwnedBy(s', sym, i);
    }
    forall id | Holds(s', id) ensures Holds(s, id) && CanCommit(s.tracker, s.openings[id].symbol) {
      assert Holds(s, id);
    }
  }

  lemma CallKeepsInv(s: State, c: Call)
    requires Inv(s)
    ensures Inv(Perform(s, c))
  {
    var s' := Perform(s, c);
    CallKeepsStamps(s, c);
    CallKeepsKeys(s, c);
    forall sym | CanCommit(s.tracker, sym) ensures sym in s'.tracker && s'.tracker[sym] == s.tracker[sym] {
      CallLeavesReserved(s, c, sym);
    }
    FrameKeepsReserved(s, s');
  }

  lemma {:induction false} Reachable(actions: seq<Action>)
    ensures Inv(Exec(actions))
  {
    if actions != [] {
      Reachable(actions[..|actions| - 1]);
      var s := Exec(actions[..|actions| - 1]);
      match actions[|actions| - 1]
      case Open(id, symbol) => OpenKeepsInv(s, id, symbol);
      case Resume(id, answer) => ResumeKeepsInv(s, id, answer);
      case Other(call) => CallKeepsInv(s, call);
    }
  }

  // ----- What holds of every run -----

  /** After any run, whatever happens next, an opening in progress keeps its reservation exactly as it is
      unless the next step is its own. */
  lemma OnlyTheOpenerReleases(actions: seq<Action>, id: nat, next: Action)
    requires var s := Exec(actions); id in s.openings && Holding(s.openings[id])
    requires !(next.Resume? && next.id == id)
    ensures var s, s' := Exec(actions), Exec(actions + [next]);
            var sym := s.openings[id].symbol;
            && sym in s.tracker && s.tracker[sym].openingInFlight && s.tracker[sym].openedAt == s.openings[id].stamp
            && sym in s'.tracker && s'.tracker[sym] == s.tracker[sym]
            && id in s'.openings && s'.openings[id] == s.openings[id]
  {
    Reachable(actions);
    assert (actions + [next])[..|actions|] == actions;
    StepKeepsReservation(Exec(actions), id, next);
  }

  lemma StepKeepsReservation(s: State, id: nat, next: Action)
    requires Inv(s) && Holds(s, id) && !(next.Resume? && next.id == id)
    ensures var s', sym := Step(s, next), s.openings[id].symbol;
            && sym in s'.tracker && s'.tracker[sym] == s.tracker[sym]
            && id in s'.openings && s'.openings[id] == s.openings[id]
  {
    match next
    case Open(_, _) =>
    case Other(call) => CallLeavesReserved(s, call, s.openings[id].symbol);
    case Resume(other, answer) =>
      if other in s.openings && Holding(s.openings[other]) {
        assert Holds(s, other);
      }
  }

  /** The commit at the end of an opening never fails: the branch that closes the position again and drops
      the entry because the tracker changed is never taken. */
  lemma CommitNeverFails(actions: seq<Action>, id: nat, pos: TrackedPosition)
    requires var s := Exec(actions); id in s.openings && s.openings[id].stage in {Committing, CommittingEmergency}
    ensures var s, s' := Exec(actions), Exec(actions + [Resume(id, Commit(pos))]);
            var o := s.openings[id];
            && s'.openings[id].stage == Ended(if o.stage == Committing then NowTracked else EmergencyTracked)
            && o.symbol in s'.tracker && !s'.tracker[o.symbol].openingInFlight
            && s'.tracker[o.symbol].tpClientOrderId == o.tpClientOrderId
            && s'.tracker[o.symbol].slClientOrderId == o.slClientOrderId
            && s'.tracker[o.symbol].openedAt > o.stamp
  {
    Reachable(actions);
    assert (actions + [Resume(id, Commit(pos))])[..|actions|] == actions;
    CommitSucceeds(Exec(actions), id, pos);
  }

  lemma CommitSucceeds(s: State, id: nat, pos: TrackedPosition)
    requires Inv(s) && id in s.openings && s.openings[id].stage in {Committing, CommittingEmergency}
    ensures var s', o := ResumeOpening(s, id, Commit(pos)), s.openings[id];
            && s'.openings[id].stage == Ended(if o.stage == Committing then NowTracked else EmergencyTracked)
            && o.symbol in s'.tracker && !s'.tracker[o.symbol].openingInFlight
            && s'.tracker[o.symbol].tpClientOrderId == o.tpClientOrderId
            && s'.tracker[o.symbol].slClientOrderId == o.slClientOrderId
            && s'.tracker[o.symbol].openedAt > o.stamp
  {
    assert Holds(s, id);
    assert CanCommit(s.tracker, s.openings[id].symbol);
  }

  /** No path leaks a reservation: once every opening has ended, no entry is in flight; and at any time
      no symbol is being opened twice. */
  lemma NothingLeaks(actions: seq<Action>)
    ensures var s := Exec(actions);
            && ((forall id | id in s.openings :: s.openings[id].stage.Ended?) ==>
                  forall sym | sym in s.tracker :: !s.tracker[sym].openingInFlight)
            && (forall i, j | i in s.openings && j in s.openings && i != j && Holding(s.openings[i]) && Holding(s.openings[j]) ::
                  s.openings[i].symbol != s.openings[j].symbol)
  {
    Reachable(actions);
    var s := Exec(actions);
    forall i, j | i in s.openings && j in s.openings && i != j && Holding(s.openings[i]) && Holding(s.openings[j])
      ensures s.openings[i].symbol != s.openings[j].symbol
    {
      assert Holds(s, i) && Holds(s, j);
    }
    forall sym | sym in s.tracker && s.tracker[sym].openingInFlight
      ensures exists id :: id in s.openings && !s.openings[id].stage.Ended?
    {
      var id :| OwnedBy(s, sym, id);
    }
  }

  /** An accepted market order ends in exactly one of three ways, and at that very step the tracker agrees: tracked and no longer
      in flight, or verified flat and untracked. An order never accepted leaves no entry; sent directly, it left nothing open, and
      sent through the planner, it left exactly the slices accepted before the planner stopped. */
  lemma AcceptedOrdersSettle(actions: seq<Action>, id: nat, answer: Answer)
    requires var s, s' := Exec(actions), Exec(actions + [Resume(id, answer)]);
             id in s.openings && Holding(s.openings[id]) && s'.openings[id].stage.Ended?
    ensures var s' := Exec(actions + [Resume(id, answer)]);
            var o := s'.openings[id];
            && (o.accepted ==> o.stage.how in {VerifiedFlat, NowTracked, EmergencyTracked})
            && (o.accepted && o.stage.how != VerifiedFlat ==> o.symbol in s'.tracker && !s'.tracker[o.symbol].openingInFlight)
            && (o.accepted && o.stage.how == VerifiedFlat ==> o.symbol !in s'.tracker && answer == LiveQuantity(true))
            && (!o.accepted ==> (o.stage.how == NothingOpened || o.stage.how.PartlySent?) && o.symbol !in s'.tracker)
            && (!o.accepted && !answer.Planned? ==> o.stage.how == NothingOpened)
            && (!o.accepted && answer.Planned? ==> o.stage.how == PlanEnding(answer.outcome))
  {
    Reachable(actions);
    var s := Exec(actions);
    assert Holds(s, id);
    assert (actions + [Resume(id, answer)])[..|actions|] == actions;
    MovesFit(s.openings[id], answer);
  }

  // Some order of the run was accepted by the exchange.
  ghost predicate SomeAccepted(w: Planner.World, sent: seq<Planner.Sent>) {
    exists i :: 0 <= i < |sent| && w.reply(i).Accepted?
  }

  lemma StoppedAfterAccepted(plan: Planner.Plan, draft: Planner.Draft, w: Planner.World, rows: map<string, Planner.Row>)
    requires plan.slices != []
    ensures var ran := Planner.RunAll(plan, draft, w, rows);
            && (ran.out.Done? ==> SomeAccepted(w, ran.sent))
            && (ran.out.Stopped? ==> (SomeAccepted(w, ran.sent) <==> ran.out.slice >= 1))
            && (ran.out.Done? || ran.out.Stopped?)
  {
    Planner.RunIsSafe(plan, draft, w, rows);
    var ran := Planner.RunAll(plan, draft, w, rows);
    if ran.out.Done? || (ran.out.Stopped? && ran.out.slice >= 1) {
      assert w.reply(0).Accepted? && |ran.sent| > 0;
    }
  }

  /** Composed with the planner's own loop: of an order sent in slices, something is open on the exchange while no entry is left
      exactly when the planner stopped after at least one slice; the entry is kept exactly when no slice stopped it. */
  lemma PlannedOrderSettles(actions: seq<Action>, id: nat, plan: Planner.Plan, draft: Planner.Draft, w: Planner.World,
                            rows: map<string, Planner.Row>, nativeAccepted: bool)
    requires var s := Exec(actions); id in s.openings && s.openings[id].stage == PlacingMarket
    requires plan.slices != []
    ensures var ran := Planner.RunAll(plan, draft, w, rows);
            var s' := Exec(actions + [Resume(id, Planned(ran.out, nativeAccepted))]);
            var o := s'.openings[id];
            && (SomeAccepted(w, ran.sent) && o.symbol !in s'.tracker <==> ran.out.Stopped? && ran.out.slice >= 1)
            && (o.symbol in s'.tracker <==> ran.out.Done?)
            && (ran.out.Stopped? && ran.out.slice >= 1 ==> o.stage == Ended(PartlySent(ran.out.slice)))
  {
    var ran := Planner.RunAll(plan, draft, w, rows);
    var answer := Planned(ran.out, nativeAccepted);
    StoppedAfterAccepted(plan, draft, w, rows);
    Reachable(actions);
    var s := Exec(actions);
    assert Holds(s, id);
    assert (actions + [Resume(id, answer)])[..|actions|] == actions;
  }

  const PartialPlan := Planner.Plan("p", [Planner.Slice("a", Buy, Some(1.0)), Planner.Slice("b", Buy, Some(1.0))])

  // The first slice is accepted; then the latest decision turns against the order.
  const TurnedWorld := Planner.World((k: nat) => k == 1, (k: nat) => Planner.Accepted(Some(1.0)), (n: nat) => true)

  /** Such an order: two slices, the first accepted, the second called off. Its position stays on the exchange, untracked. */
  lemma PartialPlanIsLost(symbol: string, rows: map<string, Planner.Row>)
    requires symbol != ""
    ensures var ran := Planner.RunAll(PartialPlan, Planner.Draft(Buy, 2.0), TurnedWorld, rows);
            var s := Exec([Open(0, symbol), Resume(0, Leverage(true)), Resume(0, Planned(ran.out, false))]);
            && SomeAccepted(TurnedWorld, ran.sent) && s.tracker == map[]
            && 0 in s.openings && s.openings[0].stage == Ended(PartlySent(1))
  {
    var draft := Planner.Draft(Buy, 2.0);
    TurnedRun(rows);
    var ran := Planner.RunAll(PartialPlan, draft, TurnedWorld, rows);
    StoppedAfterAccepted(PartialPlan, draft, TurnedWorld, rows);
    var a, b, c := Open(0, symbol), Resume(0, Leverage(true)), Resume(0, Planned(ran.out, false));
    assert [a, b, c][..2] == [a, b] && [a, b][..1] == [a] && [a][..0] == [];
    assert Exec([a]) == StartOpening(Init, 0, symbol);
    assert Exec([a, b]) == ResumeOpening(Exec([a]), 0, Leverage(true));
  }

  lemma TurnedRun(rows: map<string, Planner.Row>)
    ensures Planner.RunAll(PartialPlan, Planner.Draft(Buy, 2.0), TurnedWorld, rows).out == Planner.Stopped(1, Planner.Contradicted)
  {
    var draft, w := Planner.Draft(Buy, 2.0), TurnedWorld;
    assert Planner.CauseAt(PartialPlan, draft, w, 0.0, 0) == None;
    var first := Planner.SentAt(PartialPlan, draft, 0);
    Planner.TotalPush([], first);
    assert [] + [first] == [first] && Planner.Total([first]) == 1.0;
    assert Planner.CauseAt(PartialPlan, draft, w, 1.0, 1) == Some(Planner.Contradicted);
  }

  // No take-profit is left standing by an opening that closes its position again, or keeps it as an emergency.
  predicate TakenBack(o: Opening) { o.stage in {Closing, VerifyingFlat, CommittingEmergency} ==> !o.tpPlaced }

  lemma UnwindTakesBack(o: Opening, a: Answer)
    requires TakenBack(o) && (o.stage == PlacingTakeProfit || !PastMarket(o.stage) || o.stage.LearningFill? ==> !o.tpPlaced)
    ensures var d := Decide(o, a);
            d.Advance? ==> TakenBack(d.next) && (d.next.stage == PlacingTakeProfit || !PastMarket(d.next.stage) || d.next.stage.LearningFill? ==> !d.next.tpPlaced)
  {}

  /** Before an opening sends its emergency close, and until it has ended, the take-profit it placed has been asked to be cancelled. */
  lemma {:induction false} ClosesWithoutTakeProfit(actions: seq<Action>, id: nat)
    requires id in Exec(actions).openings && Holding(Exec(actions).openings[id])
    ensures var o := Exec(actions).openings[id];
            TakenBack(o) && (o.stage == PlacingTakeProfit || !PastMarket(o.stage) || o.stage.LearningFill? ==> !o.tpPlaced)
  {
    if actions != [] {
      var front, a := actions[..|actions| - 1], actions[|actions| - 1];
      if id in Exec(front).openings && Holding(Exec(front).openings[id]) {
        ClosesWithoutTakeProfit(front, id);
        if a.Resume? && a.id == id {
          UnwindTakesBack(Exec(front).openings[id], a.answer);
        }
      }
    }
  }

  /** On an entry that is not being opened the other callers act in full: amendments, exit fills, and removals by the stamp they saw;
      and a recovered position is entered. */
  lemma OthersAct(s: State, sym: string, u: Update, client: string, qty: real, pos: TrackedPosition)
    requires Updatable(s.tracker, sym)
    ensures Perform(s, Amend(sym, u)).tracker == s.tracker[sym := Updated(s.tracker[sym], u)]
    ensures client != "" && IsExitOrder(s.tracker[sym], client) ==>
              && sym !in Perform(s, FullExit(sym, client)).tracker
              && (qty > 0.0 ==>
                    var left, after := s.tracker[sym].quantity - qty, Perform(s, PartialExit(sym, client, qty)).tracker;
                    after == if left <= QTY_EPSILON then s.tracker - {sym} else s.tracker[sym := s.tracker[sym].(quantity := left)])
    ensures Perform(Perform(s, Observe), RemoveStale(sym, s.tracker[sym].openedAt)).tracker == s.tracker - {sym}
    ensures pos.symbol != "" && pos.symbol !in s.tracker ==>
              var after := Perform(s, Recover(pos)).tracker;
              after.Keys == s.tracker.Keys + {pos.symbol} && Updatable(after, pos.symbol) && after[pos.symbol].quantity == pos.quantity
  {}

  /** A stamp someone still holds never names an entry opened later: whatever a stale removal takes away was
      settled when it was seen. */
  lemma StaleRemovalIsPrecise(actions: seq<Action>, sym: string, openedAt: int)
    requires var s := Exec(actions); (sym, openedAt) in s.seen && CanRemoveOpenedAt(s.tracker, sym, openedAt)
    ensures !Exec(actions).tracker[sym].openingInFlight
  {
    Reachable(actions);
  }
}
