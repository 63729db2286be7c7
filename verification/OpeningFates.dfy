/** What one opening comes to, answer by answer, whatever else runs in between
    (src/engine/signal_engine.cpp: openPositionFromPreflight). */
module OpeningFates {
  import TrackerSpec
  import opened Lifecycle

  // One of the two protecting orders, as the exchange takes it.
  datatype Leg = NotWanted | PriceInvalid | Placed(clientOrderId: string, accepted: bool)

  // What the exchange says to one opening. misses: looks at the fill that found nothing.
  datatype Facts = Facts(leverage: bool, order: Answer, misses: nat, takeProfit: Leg, stop: Leg, closed: bool, flat: bool,
                         pos: TrackerSpec.TrackedPosition)

  predicate Sensible(f: Facts) { (f.order.Market? || f.order.Planned?) && f.misses <= 3 }

  predicate OrderAccepted(order: Answer) {
    || order == Market(true)
    || (order.Planned? && (order.outcome.Done? || (order.outcome.Native? && order.nativeAccepted)))
  }

  predicate Failed(leg: Leg) { leg.PriceInvalid? || (leg.Placed? && !leg.accepted) }

  /** How the opening ends: without an order nothing is kept; with both legs standing the position is tracked; with a failed leg it
      is gone exactly when its close is accepted and found flat. */
  function Fate(f: Facts): Ending {
    if !f.leverage then NothingOpened
    else if !OrderAccepted(f.order) then
      if f.order.Planned? && f.order.outcome.Stopped? && f.order.outcome.slice > 0 then PartlySent(f.order.outcome.slice)
      else NothingOpened
    else if !Failed(f.takeProfit) && !Failed(f.stop) then NowTracked
    else if f.closed && f.flat then VerifiedFlat
    else EmergencyTracked
  }

  // The ids an opening generated, empty for an order it never got to.
  function TakeProfitId(f: Facts): string {
    if f.leverage && OrderAccepted(f.order) && f.takeProfit.Placed? then f.takeProfit.clientOrderId else ""
  }

  function StopId(f: Facts): string {
    if f.leverage && OrderAccepted(f.order) && !Failed(f.takeProfit) && f.stop.Placed? then f.stop.clientOrderId else ""
  }

  // The opening as it ends; its take-profit is left standing only beside a tracked position with both legs.
  function End(o: Opening, f: Facts): Opening {
    Opening(o.symbol, o.stamp, f.leverage && OrderAccepted(f.order), Fate(f) == NowTracked && f.takeProfit.Placed?,
            TakeProfitId(f), StopId(f), Ended(Fate(f)))
  }

  // ----- The answers in the order they are asked for -----

  function Script(f: Facts): seq<Answer>
    requires Sensible(f)
  {
    if !f.leverage then [Leverage(false)]
    else [Leverage(true)] + ([f.order] + if OrderAccepted(f.order) then Looks(f, 0) else [])
  }

  // Up to three looks at the fill.
  function Looks(f: Facts, looked: nat): seq<Answer>
    requires f.misses <= 3 && looked <= f.misses
    decreases f.misses - looked
  {
    if looked == 3 then Legs(f)
    else if looked < f.misses then [Fill(false)] + Looks(f, looked + 1)
    else [Fill(true)] + Legs(f)
  }

  function Legs(f: Facts): seq<Answer> {
    [TakeProfitAnswer(f.takeProfit)] + if Failed(f.takeProfit) then ClosingUp(f) else StopOn(f)
  }

  function StopOn(f: Facts): seq<Answer> {
    [StopAnswer(f.stop)] +
    if !Failed(f.stop) then [Commit(f.pos)]
    else if f.takeProfit.Placed? then [TakeProfitCancelled] + ClosingUp(f)
    else ClosingUp(f)
  }

  function TakeProfitAnswer(leg: Leg): Answer {
    match leg
    case NotWanted => TakeProfitNotWanted
    case PriceInvalid => TakeProfitPriceInvalid
    case Placed(client, accepted) => Answer.TakeProfit(client, accepted)
  }

  function StopAnswer(leg: Leg): Answer {
    match leg
    case NotWanted => StopNotWanted
    case PriceInvalid => StopPriceInvalid
    case Placed(client, accepted) => Stop(client, accepted)
  }

  function ClosingUp(f: Facts): seq<Answer> {
    if !f.closed then [Close(false), Commit(f.pos)]
    else if !f.flat then [Close(true), LiveQuantity(false), Commit(f.pos)]
    else [Close(true), LiveQuantity(true)]
  }

  // ----- One opening alone -----

  function Next(o: Opening, a: Answer): Opening {
    match Decide(o, a)
    case Ignore => o
    case Advance(next) => next
    case Remove(how) => o.(stage := Ended(how))
    case TryCommit(_, how) => o.(stage := Ended(how))
  }

  function Fed(o: Opening, answers: seq<Answer>): Opening {
    if answers == [] then o else Next(Fed(o, answers[..|answers| - 1]), answers[|answers| - 1])
  }

  // The opening waits for each of the answers in turn, and ends as given at the last of them.
  ghost predicate ComesTo(o: Opening, answers: seq<Answer>, end: Opening)
    decreases |answers|
  {
    if answers == [] then o == end && end.stage.Ended?
    else Holding(o) && !Decide(o, answers[0]).Ignore? && ComesTo(Next(o, answers[0]), answers[1..], end)
  }

  lemma {:induction false} ComesToFed(o: Opening, answers: seq<Answer>, end: Opening)
    requires ComesTo(o, answers, end)
    ensures Fed(o, answers) == end
    decreases |answers|
  {
    if answers != [] {
      ComesToFed(Next(o, answers[0]), answers[1..], end);
      FedFirst(o, answers);
    }
  }

  lemma {:induction false} FedFirst(o: Opening, answers: seq<Answer>)
    requires answers != []
    ensures Fed(o, answers) == Fed(Next(o, answers[0]), answers[1..])
  {
    var front := answers[..|answers| - 1];
    if front == [] {
      assert Fed(o, front) == o && answers[1..] == [];
    } else {
      FedFirst(o, front);
      assert answers[1..][..|answers| - 2] == front[1..];
    }
  }

  lemma Asked(o: Opening, a: Answer, rest: seq<Answer>, end: Opening)
    requires Holding(o) && !Decide(o, a).Ignore? && ComesTo(Next(o, a), rest, end)
    ensures ComesTo(o, [a] + rest, end)
  {
    assert ([a] + rest)[1..] == rest;
  }

  lemma Done(o: Opening, a: Answer, end: Opening)
    requires Holding(o) && !Decide(o, a).Ignore? && Next(o, a) == end && end.stage.Ended?
    ensures ComesTo(o, [a], end)
  {
    Asked(o, a, [], end);
    assert [a] + [] == [a];
  }

  lemma ClosingUpEnds(o: Opening, f: Facts)
    requires o.stage == Closing
    ensures ComesTo(o, ClosingUp(f), o.(stage := Ended(if f.closed && f.flat then VerifiedFlat else EmergencyTracked)))
  {
    var next := Next(o, Close(f.closed));
    var end := o.(stage := Ended(if f.closed && f.flat then VerifiedFlat else EmergencyTracked));
    if !f.closed {
      Done(next, Commit(f.pos), end);
      Asked(o, Close(false), [Commit(f.pos)], end);
    } else if !f.flat {
      Done(Next(next, LiveQuantity(false)), Commit(f.pos), end);
      Asked(next, LiveQuantity(false), [Commit(f.pos)], end);
      Asked(o, Close(true), [LiveQuantity(false)] + [Commit(f.pos)], end);
    } else {
      Done(next, LiveQuantity(true), end);
      Asked(o, Close(true), [LiveQuantity(true)], end);
    }
  }

  lemma StopEnds(o: Opening, f: Facts)
    requires o.stage == PlacingStop && o.accepted && f.leverage && OrderAccepted(f.order) && !Failed(f.takeProfit)
    requires o.tpPlaced == f.takeProfit.Placed? && o.tpClientOrderId == TakeProfitId(f) && o.slClientOrderId == ""
    ensures ComesTo(o, StopOn(f), End(o, f))
  {
    var stop, end := StopAnswer(f.stop), End(o, f);
    var next := Next(o, stop);
    if !Failed(f.stop) {
      Done(next, Commit(f.pos), end);
      Asked(o, stop, [Commit(f.pos)], end);
    } else if f.takeProfit.Placed? {
      ClosingUpEnds(Next(next, TakeProfitCancelled), f);
      Asked(next, TakeProfitCancelled, ClosingUp(f), end);
      Asked(o, stop, [TakeProfitCancelled] + ClosingUp(f), end);
    } else {
      ClosingUpEnds(next, f);
      Asked(o, stop, ClosingUp(f), end);
    }
  }

  lemma LegsEnd(o: Opening, f: Facts)
    requires o.stage == PlacingTakeProfit && o.accepted && !o.tpPlaced && f.leverage && OrderAccepted(f.order)
    requires o.tpClientOrderId == o.slClientOrderId == ""
    ensures ComesTo(o, Legs(f), End(o, f))
  {
    var takeProfit := TakeProfitAnswer(f.takeProfit);
    var next := Next(o, takeProfit);
    if Failed(f.takeProfit) {
      ClosingUpEnds(next, f);
      Asked(o, takeProfit, ClosingUp(f), End(o, f));
    } else {
      StopEnds(next, f);
      Asked(o, takeProfit, StopOn(f), End(o, f));
    }
  }

  lemma {:induction false} LooksEnd(o: Opening, f: Facts, looked: nat)
    requires f.misses <= 3 && looked <= f.misses && o.accepted && !o.tpPlaced && f.leverage && OrderAccepted(f.order)
    requires o.stage == if looked == 3 then PlacingTakeProfit else LearningFill(looked)
    requires o.tpClientOrderId == o.slClientOrderId == ""
    ensures ComesTo(o, Looks(f, looked), End(o, f))
    decreases f.misses - looked
  {
    if looked == 3 {
      LegsEnd(o, f);
    } else if looked < f.misses {
      LooksEnd(Next(o, Fill(false)), f, looked + 1);
      Asked(o, Fill(false), Looks(f, looked + 1), End(o, f));
    } else {
      LegsEnd(Next(o, Fill(true)), f);
      Asked(o, Fill(true), Legs(f), End(o, f));
    }
  }

  lemma ScriptEnds(o: Opening, f: Facts)
    requires o == Started(o.symbol, o.stamp) && Sensible(f)
    ensures ComesTo(o, Script(f), End(o, f))
  {
    var o1, end := Next(o, Leverage(f.leverage)), End(o, f);
    if !f.leverage {
      Done(o, Leverage(false), end);
    } else {
      var o2 := Next(o1, f.order);
      if OrderAccepted(f.order) {
        LooksEnd(o2, f, 0);
        Asked(o1, f.order, Looks(f, 0), end);
        Asked(o, Leverage(true), [f.order] + Looks(f, 0), end);
      } else {
        Done(o1, f.order, end);
        assert [f.order] + [] == [f.order];
        Asked(o, Leverage(true), [f.order], end);
      }
    }
  }

  // ----- In any run -----

  function Started(symbol: string, stamp: int): Opening { Opening(symbol, stamp, false, false, "", "", SettingLeverage) }

  // The answers given to an opening once it had begun.
  function Answers(actions: seq<Action>, id: nat): seq<Answer> {
    if actions == [] then []
    else
      var front, last := actions[..|actions| - 1], actions[|actions| - 1];
      if last.Resume? && last.id == id && id in Exec(front).openings then Answers(front, id) + [last.answer] else Answers(front, id)
  }

  /** However openings and other callers interleave, an opening that got its reservation stands where its own answers alone have
      brought it. */
  lemma {:induction false} OwnAnswersDecide(actions: seq<Action>, id: nat)
    requires id in Exec(actions).openings && Exec(actions).openings[id].stage != Ended(AlreadyTracked)
    ensures var o := Exec(actions).openings[id]; o == Fed(Started(o.symbol, o.stamp), Answers(actions, id))
  {
    var front, last := actions[..|actions| - 1], actions[|actions| - 1];
    if id !in Exec(front).openings {
      NoAnswersYet(front, id);
      Begins(Exec(front), id, last);
    } else if last.Resume? && last.id == id {
      Reachable(front);
      OwnMove(Exec(front), id, last.answer);
      NextKeeps(Exec(front).openings[id], last.answer);
      OwnAnswersDecide(front, id);
      FedLast(Started(Exec(front).openings[id].symbol, Exec(front).openings[id].stamp), Answers(front, id), last.answer);
    } else {
      OthersLeave(Exec(front), id, last);
      OwnAnswersDecide(front, id);
    }
  }

  lemma FedLast(o: Opening, answers: seq<Answer>, a: Answer)
    ensures Fed(o, answers + [a]) == Next(Fed(o, answers), a)
  {
    assert (answers + [a])[..|answers|] == answers;
  }

  lemma Begins(s: State, id: nat, a: Action)
    requires id !in s.openings && id in Step(s, a).openings && Step(s, a).openings[id].stage != Ended(AlreadyTracked)
    ensures var o := Step(s, a).openings[id]; o == Started(o.symbol, o.stamp)
  {}

  lemma OthersLeave(s: State, id: nat, a: Action)
    requires id in s.openings && !(a.Resume? && a.id == id)
    ensures id in Step(s, a).openings && Step(s, a).openings[id] == s.openings[id]
  {}

  lemma {:induction false} NoAnswersYet(actions: seq<Action>, id: nat)
    requires id !in Exec(actions).openings
    ensures Answers(actions, id) == []
  {
    if actions != [] {
      NoAnswersYet(actions[..|actions| - 1], id);
    }
  }

  lemma NextKeeps(o: Opening, a: Answer)
    ensures o.stage.Ended? ==> Next(o, a) == o
    ensures Next(o, a).symbol == o.symbol && Next(o, a).stamp == o.stamp
  {}

  lemma OwnMove(s: State, id: nat, a: Answer)
    requires Inv(s) && id in s.openings
    ensures id in ResumeOpening(s, id, a).openings && ResumeOpening(s, id, a).openings[id] == Next(s.openings[id], a)
  {
    if Decide(s.openings[id], a).TryCommit? {
      assert Holds(s, id);
      assert TrackerSpec.CanCommit(s.tracker, s.openings[id].symbol);
    }
  }

  /** In every run, an opening answered as the facts say comes to the fate they give it. */
  lemma FactsDecide(actions: seq<Action>, id: nat, f: Facts)
    requires id in Exec(actions).openings && Exec(actions).openings[id].stage != Ended(AlreadyTracked)
    requires Sensible(f) && Answers(actions, id) == Script(f)
    ensures Exec(actions).openings[id] == End(Exec(actions).openings[id], f)
  {
    var o := Exec(actions).openings[id];
    OwnAnswersDecide(actions, id);
    ScriptEnds(Started(o.symbol, o.stamp), f);
    ComesToFed(Started(o.symbol, o.stamp), Script(f), End(o, f));
  }
}
