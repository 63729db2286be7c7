/** The life of a stop order under three interleaved uses of it: trailing (src/engine/signal_engine.cpp, processTrailingStops),
    and the monitor, which after an averaging-down fill refreshes the stop (src/engine/loss_manager.cpp,
    refreshStopLossAfterDca) and closes what has been held too long (src/engine/signal_engine.cpp, processExpiredPositions).
    One symbol, any number of successive positions on it. Every awaited port call takes effect in a step of its own,
    before the step that acts on its answer. */
module StopProtection {
  import opened Common
  import TrailingStop

  // A tracked position, its trailing level and the stop it records. A client id of 0 stands for an empty one, an order id
  // of 0 for one the exchange did not report.
  datatype Pos = Pos(openedAt: nat, long: bool, trails: bool, level: real, slOrderId: nat, slClientId: nat)

  datatype Entry = NoEntry | InFlight | Open(pos: Pos)

  predicate KnowsStop(p: Pos) { p.slOrderId > 0 || p.slClientId > 0 }

  // Stops are numbered as they are placed; the number is both the order id and the client id.
  function Target(p: Pos): nat { if p.slOrderId > 0 then p.slOrderId else p.slClientId }

  // A stop order an actor has placed but not recorded yet.
  datatype Ticket = Ticket(stop: nat, reported: bool, level: real)

  // pos: the copy of the position the actor works from.
  datatype Trailing =
    | TIdle
    | TChosen(pos: Pos)
    | TPlacing(pos: Pos, level: real)
    | TCancelling(pos: Pos, ticket: Ticket)
    | TRollingBack(pos: Pos, ticket: Ticket)
    | TRecording(pos: Pos, ticket: Ticket)

  // R: refreshing a stop; X: closing an expired position. One coroutine does both, so never both at once.
  // flat: the exchange is known not to hold the position any more; took: the recorded stop was cancelled.
  datatype Monitor =
    | MIdle
    | RPlacing(pos: Pos, level: real)
    | RCancelling(pos: Pos, ticket: Ticket)
    | RRecording(pos: Pos, ticket: Ticket)
    | XChosen(pos: Pos)
    | XQuerying(pos: Pos)
    | XClosing(pos: Pos)
    | XCancelling(pos: Pos, flat: bool)
    | XRemoving(pos: Pos, flat: bool, took: bool)

  // held: the exchange holds a position; live: the stops on the exchange; placedFor: the position each stop ever placed was
  // meant for; guarded: a live stop has been recorded for the present position since it was opened.
  datatype State = State(entry: Entry, held: bool, live: set<nat>, placedFor: map<nat, nat>, next: nat,
                         trailing: Trailing, monitor: Monitor, guarded: bool)

  datatype CloseReply = Unanswered | Rejected | Accepted

  datatype Action =
    | Reserve
    | Release
    | Commit(long: bool, trails: bool, level: real, reported: bool)
    | CommitUnprotected(long: bool, trails: bool, level: real, recordsFailedId: bool)
    | Recover(long: bool)
    | Close
    | Remove
    | Lapse(stop: nat)
    | TrailStart
    | TrailCheck(proposal: Option<real>)
    | TrailPlaced(ok: bool, reported: bool)
    | TrailCancelled(ok: bool)
    | TrailRolledBack(ok: bool)
    | TrailRecord
    | RefreshStart(level: real)
    | RefreshPlaced(ok: bool, reported: bool)
    | RefreshCancelled(ok: bool)
    | RefreshRecord
    | ExpireStart
    | ExpireCheck
    | ExpireQueried(answered: bool)
    | ExpireClosed(reply: CloseReply)
    | ExpireCancelled(ok: bool)
    | ExpireRemove

  const Init := State(NoEntry, false, {}, map[], 1, TIdle, MIdle, false)

  // The symbol still holds the position p was copied from.
  predicate Same(e: Entry, p: Pos) { e.Open? && e.pos.openedAt == p.openedAt }

  function Place(s: State, stamp: nat): State {
    s.(live := s.live + {s.next}, placedFor := s.placedFor[s.next := stamp], next := s.next + 1)
  }

  function Recorded(p: Pos, t: Ticket): Pos {
    p.(slOrderId := if t.reported then t.stop else 0, slClientId := t.stop, level := t.level)
  }

  // updateStopLoss: whatever position is there by now, unless it is still being opened.
  function Record(s: State, t: Ticket): State {
    if s.entry.Open? then s.(entry := Open(Recorded(s.entry.pos, t))) else s
  }

  // A cancel that is answered with a failure has had no effect; a success means the stop was live and is gone.
  predicate CanAnswer(s: State, stop: nat, ok: bool) { ok ==> stop in s.live }

  function Cancel(s: State, stop: nat, ok: bool): State { if ok then s.(live := s.live - {stop}) else s }

  // The stop was placed for the present position.
  predicate Own(s: State, stop: nat) {
    s.entry.Open? && stop in s.placedFor && s.placedFor[stop] == s.entry.pos.openedAt
  }

  function PositionStep(s: State, a: Action): State {
    match a
    case Reserve => if s.entry.NoEntry? then s.(entry := InFlight) else s
    case Release => if s.entry.InFlight? then s.(entry := NoEntry) else s
    case Commit(long, trails, level, reported) =>
      if s.entry.InFlight? then
        var s' := Place(s.(next := s.next + 1), s.next);
        s'.(entry := Open(Recorded(Pos(s.next, long, trails, level, 0, 0), Ticket(s.next + 1, reported, level))),
            held := true, guarded := true)
      else s
    // Tracked without a stop, or after a failed stop placement whose id is recorded all the same.
    case CommitUnprotected(long, trails, level, recordsFailedId) =>
      if s.entry.InFlight? then
        s.(entry := Open(Pos(s.next, long, trails, level, 0, if recordsFailedId then s.next + 1 else 0)),
           next := s.next + 2, held := true, guarded := false)
      else s
    // From a snapshot, by the monitor between its other duties: no stop, no level, never trailed.
    case Recover(long) =>
      if s.entry.NoEntry? && s.monitor.MIdle? then
        s.(entry := Open(Pos(s.next, long, false, 0.0, 0, 0)), next := s.next + 1, guarded := false)
      else s
    // The position is closed on the exchange: by an exit order, by hand, by liquidation.
    case Close => s.(held := false)
    case Remove => if s.entry.Open? then s.(entry := NoEntry, guarded := false) else s
    // A stop may fill, be cancelled or expire by itself, unless it belongs to the present position while that is held.
    case Lapse(stop) => if Own(s, stop) && s.held then s else s.(live := s.live - {stop})
    case _ => s
  }

  function Side(p: Pos): Direction { if p.long then Long else Short }

  // A level the candles propose goes on to placement: it is favourable, and an unknown stop only passes without a level.
  predicate MayTrail(p: Pos, level: real) {
    p.trails && TrailingStop.Favorable(Side(p), p.level, level) && (KnowsStop(p) || p.level <= 0.0)
  }

  function TrailingStep(s: State, a: Action): State {
    match (s.trailing, a)
    case (TIdle, TrailStart) => if s.entry.Open? then s.(trailing := TChosen(s.entry.pos)) else s
    case (TChosen(p), TrailCheck(proposal)) =>
      if proposal.Some? && MayTrail(p, proposal.value) && Same(s.entry, p) then s.(trailing := TPlacing(p, proposal.value))
      else s.(trailing := TIdle)
    case (TPlacing(p, level), TrailPlaced(ok, reported)) =>
      if !ok then s.(trailing := TIdle)
      else
        var t := Ticket(s.next, reported, level);
        Place(s, p.openedAt).(trailing := if KnowsStop(p) then TCancelling(p, t) else TRecording(p, t))
    case (TCancelling(p, t), TrailCancelled(ok)) =>
      if CanAnswer(s, Target(p), ok) then
        Cancel(s, Target(p), ok).(trailing := if ok then TRecording(p, t) else TRollingBack(p, t))
      else s
    case (TRollingBack(_, t), TrailRolledBack(ok)) =>
      if CanAnswer(s, t.stop, ok) then Cancel(s, t.stop, ok).(trailing := TIdle) else s
    case (TRecording(p, t), TrailRecord) =>
      if Same(s.entry, p) then Record(s, t).(trailing := TIdle, guarded := true) else s.(trailing := TIdle)
    case _ => s
  }

  // level: the trigger the new stop is placed at.
  function RefreshStep(s: State, a: Action): State {
    match (s.monitor, a)
    case (MIdle, RefreshStart(level)) =>
      if s.entry.Open? && KnowsStop(s.entry.pos) && s.entry.pos.level > 0.0 then s.(monitor := RPlacing(s.entry.pos, level)) else s
    case (RPlacing(p, level), RefreshPlaced(ok, reported)) =>
      if ok then Place(s, p.openedAt).(monitor := RCancelling(p, Ticket(s.next, reported, level))) else s.(monitor := MIdle)
    // A failed cancel is only logged.
    case (RCancelling(p, t), RefreshCancelled(ok)) =>
      if CanAnswer(s, Target(p), ok) then Cancel(s, Target(p), ok).(monitor := RRecording(p, t)) else s
    // No second look at which position the symbol holds by now.
    case (RRecording(p, t), RefreshRecord) => Record(s, t).(monitor := MIdle, guarded := s.guarded || Same(s.entry, p))
    case _ => s
  }

  function ExpireStep(s: State, a: Action): State {
    match (s.monitor, a)
    case (MIdle, ExpireStart) => if s.entry.Open? then s.(monitor := XChosen(s.entry.pos)) else s
    case (XChosen(p), ExpireCheck) => s.(monitor := if Same(s.entry, p) then XQuerying(p) else MIdle)
    // A position seen flat is dropped at once, its stop left alone.
    case (XQuerying(p), ExpireQueried(answered)) =>
      s.(monitor := if answered && !s.held then XRemoving(p, true, false) else XClosing(p))
    // Any answer will do, a rejection too.
    case (XClosing(p), ExpireClosed(reply)) =>
      match reply {
        case Unanswered => s.(monitor := MIdle)
        case Rejected => s.(monitor := if KnowsStop(p) then XCancelling(p, false) else XRemoving(p, false, false))
        case Accepted => s.(held := false, monitor := if KnowsStop(p) then XCancelling(p, true) else XRemoving(p, true, false))
      }
    // A failed cancel is only logged.
    case (XCancelling(p, flat), ExpireCancelled(ok)) =>
      if CanAnswer(s, Target(p), ok) then Cancel(s, Target(p), ok).(monitor := XRemoving(p, flat, ok)) else s
    case (XRemoving(p, _, _), ExpireRemove) =>
      if Same(s.entry, p) then s.(entry := NoEntry, guarded := false, monitor := MIdle) else s.(monitor := MIdle)
    case _ => s
  }

  predicate Trails(a: Action) {
    a.TrailStart? || a.TrailCheck? || a.TrailPlaced? || a.TrailCancelled? || a.TrailRolledBack? || a.TrailRecord?
  }

  predicate Refreshes(a: Action) { a.RefreshStart? || a.RefreshPlaced? || a.RefreshCancelled? || a.RefreshRecord? }

  predicate Expires(a: Action) {
    a.ExpireStart? || a.ExpireCheck? || a.ExpireQueried? || a.ExpireClosed? || a.ExpireCancelled? || a.ExpireRemove?
  }

  function Step(s: State, a: Action): State {
    if Trails(a) then TrailingStep(s, a)
    else if Refreshes(a) then RefreshStep(s, a)
    else if Expires(a) then ExpireStep(s, a)
    else PositionStep(s, a)
  }

  function ExecFrom(s: State, actions: seq<Action>): State {
    if actions == [] then s else Step(ExecFrom(s, actions[..|actions| - 1]), actions[|actions| - 1])
  }

  function Exec(actions: seq<Action>): State { ExecFrom(Init, actions) }

  // ----- The invariant -----

  // Ids and stamps in a position or a copy of one were handed out before, and the recorded stop was
  // placed for that position or an earlier one.
  ghost predicate Referenced(s: State, p: Pos) {
    && p.openedAt < s.next && p.slClientId < s.next && (p.slOrderId == 0 || p.slOrderId == p.slClientId)
    && (Target(p) in s.placedFor ==> s.placedFor[Target(p)] <= p.openedAt)
    && (s.entry.Open? ==> p.openedAt <= s.entry.pos.openedAt)
  }

  ghost predicate Numbered(s: State) {
    && (forall k | k in s.placedFor :: k < s.next && s.placedFor[k] < s.next)
    && (forall k | k in s.live :: k in s.placedFor)
  }

  ghost predicate References(s: State) {
    && (s.entry.Open? ==> Referenced(s, s.entry.pos))
    && (!s.trailing.TIdle? ==> Referenced(s, s.trailing.pos))
    && (!s.monitor.MIdle? ==> Referenced(s, s.monitor.pos))
    && (s.guarded ==> s.entry.Open?)
  }

  ghost predicate Bookkeeping(s: State) { Numbered(s) && References(s) }

  predicate TrailHasTicket(s: State) { s.trailing.TCancelling? || s.trailing.TRollingBack? || s.trailing.TRecording? }

  predicate RefreshHasTicket(s: State) { s.monitor.RCancelling? || s.monitor.RRecording? }

  // An unrecorded stop belongs to its actor's position, nobody else refers to it, and it is live while
  // that position is still tracked and held.
  ghost predicate Unrecorded(s: State, p: Pos, t: Ticket) {
    && t.stop > 0 && t.stop in s.placedFor && s.placedFor[t.stop] == p.openedAt
    && (Same(s.entry, p) && s.held ==> t.stop in s.live)
    && (s.entry.Open? ==> t.stop != Target(s.entry.pos))
    && (!s.trailing.TIdle? ==> t.stop != Target(s.trailing.pos))
    && (!s.monitor.MIdle? ==> t.stop != Target(s.monitor.pos))
  }

  ghost predicate Tickets(s: State) {
    && (TrailHasTicket(s) ==> Unrecorded(s, s.trailing.pos, s.trailing.ticket))
    && (RefreshHasTicket(s) ==> Unrecorded(s, s.monitor.pos, s.monitor.ticket))
    && (TrailHasTicket(s) && RefreshHasTicket(s) ==> s.trailing.ticket.stop != s.monitor.ticket.stop)
  }

  // Trailing may still take this stop back.
  predicate Revocable(s: State, stop: nat) {
    (s.trailing.TCancelling? || s.trailing.TRollingBack?) && s.trailing.ticket.stop == stop
  }

  predicate Protects(s: State, stop: nat) { Own(s, stop) && stop in s.live && !Revocable(s, stop) }

  // Expiry has cancelled the recorded stop of the position it is about to drop.
  predicate Stripped(s: State) { s.monitor.XRemoving? && s.monitor.took && Same(s.entry, s.monitor.pos) }

  ghost predicate Protected(s: State) {
    s.guarded && s.held && !Stripped(s) ==> exists stop :: Protects(s, stop)
  }

  // The record names a stop placed for the present position.
  predicate OwnRecord(s: State) { s.entry.Open? && Own(s, Target(s.entry.pos)) }

  // A recorded stop of a held position is live, or an actor is about to record its replacement or drop the entry.
  ghost predicate RecordCurrent(s: State) {
    OwnRecord(s) && s.held ==>
      || Target(s.entry.pos) in s.live
      || (s.trailing.TRecording? && Same(s.entry, s.trailing.pos))
      || (s.monitor.RRecording? && Same(s.entry, s.monitor.pos))
      || Stripped(s)
  }

  // An expiry that knows the exchange to be flat is right about its own position.
  predicate FlatIsFlat(s: State) {
    (s.monitor.XCancelling? || s.monitor.XRemoving?) && s.monitor.flat && Same(s.entry, s.monitor.pos) ==> !s.held
  }

  ghost predicate Inv(s: State) {
    Bookkeeping(s) && Tickets(s) && Protected(s) && RecordCurrent(s) && FlatIsFlat(s)
  }

  ghost predicate Books(s: State) { Bookkeeping(s) && Tickets(s) }

  lemma PositionKeepsBooks(s: State, a: Action)
    requires Books(s)
    ensures Books(PositionStep(s, a))
  {
    PositionKeepsBookkeeping(s, a);
    PositionKeepsTickets(s, a);
  }

  lemma PositionKeepsBookkeeping(s: State, a: Action)
    requires Books(s)
    ensures Bookkeeping(PositionStep(s, a))
  {
    PositionKeepsNumbers(s, a);
    PositionKeepsEntry(s, a);
    PositionKeepsCopies(s, a);
  }

  lemma PositionKeepsNumbers(s: State, a: Action)
    requires Numbered(s)
    ensures Numbered(PositionStep(s, a))
  {}

  lemma PositionKeepsEntry(s: State, a: Action)
    requires Books(s)
    ensures var s' := PositionStep(s, a); (s'.entry.Open? ==> Referenced(s', s'.entry.pos)) && (s'.guarded ==> s'.entry.Open?)
  {}

  lemma PositionKeepsCopies(s: State, a: Action)
    requires Books(s)
    ensures var s' := PositionStep(s, a);
            && (!s'.trailing.TIdle? ==> Referenced(s', s'.trailing.pos))
            && (!s'.monitor.MIdle? ==> Referenced(s', s'.monitor.pos))
  {}

  lemma PositionKeepsTickets(s: State, a: Action)
    requires Books(s)
    ensures Tickets(PositionStep(s, a))
  {}

  lemma PositionKeepsProtected(s: State, a: Action)
    requires Books(s) && Protected(s)
    ensures Protected(PositionStep(s, a))
  {
    var s' := PositionStep(s, a);
    if s'.guarded && s'.held && !Stripped(s') {
      if a.Commit? && s.entry.InFlight? {
        assert Protects(s', s.next + 1);
      } else {
        var stop :| Protects(s, stop);
        assert Protects(s', stop);
      }
    }
  }

  lemma PositionKeepsRecord(s: State, a: Action)
    requires Books(s) && RecordCurrent(s) && FlatIsFlat(s)
    ensures RecordCurrent(PositionStep(s, a)) && FlatIsFlat(PositionStep(s, a))
  {}

  lemma TrailingKeepsNumbers(s: State, a: Action)
    requires Numbered(s) && (!s.trailing.TIdle? ==> s.trailing.pos.openedAt < s.next)
    ensures Numbered(TrailingStep(s, a))
  {}

  lemma TrailingKeepsEntry(s: State, a: Action)
    requires Books(s)
    ensures var s' := TrailingStep(s, a); s'.entry.Open? ==> Referenced(s', s'.entry.pos)
  {
    var s' := TrailingStep(s, a);
    if s.trailing.TRecording? && a.TrailRecord? && Same(s.entry, s.trailing.pos) {
      assert Target(s'.entry.pos) == s.trailing.ticket.stop;
    }
  }

  lemma TrailingKeepsCopies(s: State, a: Action)
    requires Books(s)
    ensures var s' := TrailingStep(s, a);
            && (!s'.trailing.TIdle? ==> Referenced(s', s'.trailing.pos))
            && (s'.guarded ==> s'.entry.Open?)
  {}

  lemma TrailingFrame(s: State, a: Action)
    requires Books(s)
    ensures var s' := TrailingStep(s, a);
            && s'.monitor == s.monitor && s'.held == s.held && s.next <= s'.next
            && (forall k | k in s.placedFor :: k in s'.placedFor && s'.placedFor[k] == s.placedFor[k])
            && (forall k | k in s'.placedFor && k !in s.placedFor :: k == s.next)
            && (s'.entry.Open? <==> s.entry.Open?) && (s.entry.Open? ==> s'.entry.pos.openedAt == s.entry.pos.openedAt)
  {}

  lemma TrailingKeepsMonitorCopies(s: State, a: Action)
    requires Books(s)
    ensures var s' := TrailingStep(s, a); !s'.monitor.MIdle? ==> Referenced(s', s'.monitor.pos)
  {
    TrailingFrame(s, a);
  }

  lemma TrailingKeepsTrailTicket(s: State, a: Action)
    requires Books(s)
    ensures var s' := TrailingStep(s, a); TrailHasTicket(s') ==> Unrecorded(s', s'.trailing.pos, s'.trailing.ticket)
  {}

  lemma TrailingKeepsRefreshTicket(s: State, a: Action)
    requires Books(s)
    ensures var s' := TrailingStep(s, a); RefreshHasTicket(s') ==> Unrecorded(s', s'.monitor.pos, s'.monitor.ticket)
  {
    TrailingFrame(s, a);
  }

  lemma TrailingKeepsTicketsApart(s: State, a: Action)
    requires Books(s)
    ensures var s' := TrailingStep(s, a); TrailHasTicket(s') && RefreshHasTicket(s') ==> s'.trailing.ticket.stop != s'.monitor.ticket.stop
  {}

  lemma TrailingKeepsBooks(s: State, a: Action)
    requires Books(s)
    ensures Books(TrailingStep(s, a))
  {
    TrailingKeepsNumbers(s, a);
    TrailingKeepsEntry(s, a);
    TrailingKeepsCopies(s, a);
    TrailingKeepsMonitorCopies(s, a);
    TrailingKeepsTrailTicket(s, a);
    TrailingKeepsRefreshTicket(s, a);
    TrailingKeepsTicketsApart(s, a);
  }

  // A stop trailing cancels is replaced by its own, which from then on it only records.
  lemma TrailingKeepsProtected(s: State, a: Action)
    requires Books(s) && Protected(s)
    ensures Protected(TrailingStep(s, a))
  {
    var s' := TrailingStep(s, a);
    if s'.guarded && s'.held && !Stripped(s') {
      if s.trailing.TRecording? && a.TrailRecord? && Same(s.entry, s.trailing.pos) {
        assert Protects(s', s.trailing.ticket.stop);
      } else {
        var stop :| Protects(s, stop);
        if stop !in s'.live {
          assert Protects(s', s.trailing.ticket.stop);
        } else {
          assert Protects(s', stop);
        }
      }
    }
  }

  lemma TrailingKeepsRecord(s: State, a: Action)
    requires Books(s) && RecordCurrent(s) && FlatIsFlat(s)
    ensures RecordCurrent(TrailingStep(s, a)) && FlatIsFlat(TrailingStep(s, a))
  {}

  lemma RefreshKeepsNumbers(s: State, a: Action)
    requires Books(s)
    ensures Numbered(RefreshStep(s, a))
  {}

  lemma RefreshKeepsEntry(s: State, a: Action)
    requires Books(s)
    ensures var s' := RefreshStep(s, a); (s'.entry.Open? ==> Referenced(s', s'.entry.pos)) && (s'.guarded ==> s'.entry.Open?)
  {}

  lemma RefreshKeepsTrailCopies(s: State, a: Action)
    requires Books(s)
    ensures var s' := RefreshStep(s, a); !s'.trailing.TIdle? ==> Referenced(s', s'.trailing.pos)
  {}

  lemma RefreshKeepsCopies(s: State, a: Action)
    requires Books(s)
    ensures var s' := RefreshStep(s, a); !s'.monitor.MIdle? ==> Referenced(s', s'.monitor.pos)
  {}

  lemma RefreshKeepsTickets(s: State, a: Action)
    requires Books(s)
    ensures Tickets(RefreshStep(s, a))
  {}

  lemma RefreshKeepsBooks(s: State, a: Action)
    requires Books(s)
    ensures Books(RefreshStep(s, a))
  {
    RefreshKeepsNumbers(s, a);
    RefreshKeepsEntry(s, a);
    RefreshKeepsTrailCopies(s, a);
    RefreshKeepsCopies(s, a);
    RefreshKeepsTickets(s, a);
  }

  // A stop the refresh cancels is replaced by its own, which it always goes on to record.
  lemma RefreshKeepsProtected(s: State, a: Action)
    requires Books(s) && Protected(s)
    ensures Protected(RefreshStep(s, a))
  {
    var s' := RefreshStep(s, a);
    if s'.guarded && s'.held && !Stripped(s') {
      if !s.guarded {
        assert Protects(s', s.monitor.ticket.stop);
      } else {
        var stop :| Protects(s, stop);
        if stop !in s'.live {
          assert Protects(s', s.monitor.ticket.stop);
        } else {
          assert Protects(s', stop);
        }
      }
    }
  }

  lemma RefreshKeepsRecord(s: State, a: Action)
    requires Books(s) && RecordCurrent(s) && FlatIsFlat(s)
    ensures RecordCurrent(RefreshStep(s, a)) && FlatIsFlat(RefreshStep(s, a))
  {}

  // Expiry places and records nothing.
  lemma ExpireKeepsBooks(s: State, a: Action)
    requires Books(s)
    ensures Books(ExpireStep(s, a))
  {
    ExpireKeepsReferences(s, a);
    ExpireKeepsTickets(s, a);
  }

  lemma ExpireFrame(s: State, a: Action)
    requires Books(s)
    ensures var s' := ExpireStep(s, a);
            && s'.placedFor == s.placedFor && s'.next == s.next && s'.live <= s.live && s'.trailing == s.trailing
            && (s'.held ==> s.held) && (s'.entry == s.entry || s'.entry.NoEntry?) && (s'.guarded ==> s.guarded && s'.entry.Open?)
            && (s'.monitor == s.monitor || !RefreshHasTicket(s'))
            && (!s'.monitor.MIdle? && !s.monitor.MIdle? ==> s'.monitor.pos == s.monitor.pos)
            && (!s'.monitor.MIdle? && s.monitor.MIdle? ==> s.entry.Open? && s'.monitor.pos == s.entry.pos)
  {}

  lemma ExpireKeepsReferences(s: State, a: Action)
    requires Books(s)
    ensures Bookkeeping(ExpireStep(s, a))
  {
    ExpireFrame(s, a);
  }

  lemma ExpireCancelsOther(s: State, a: Action, stop: nat)
    requires stop in s.live && (!s.monitor.MIdle? ==> stop != Target(s.monitor.pos))
    ensures stop in ExpireStep(s, a).live
  {}

  lemma ExpireKeepsTickets(s: State, a: Action)
    requires Books(s)
    ensures Tickets(ExpireStep(s, a))
  {
    ExpireFrame(s, a);
    if TrailHasTicket(s) && s.trailing.ticket.stop in s.live {
      ExpireCancelsOther(s, a, s.trailing.ticket.stop);
    }
    if RefreshHasTicket(s) && s.monitor.ticket.stop in s.live {
      ExpireCancelsOther(s, a, s.monitor.ticket.stop);
    }
  }

  // Expiry replaces nothing: what it cancels is its own position's stop, and it says so until the entry is gone.
  lemma ExpireKeepsProtected(s: State, a: Action)
    requires Books(s) && Protected(s)
    ensures Protected(ExpireStep(s, a))
  {
    var s' := ExpireStep(s, a);
    if s'.guarded && s'.held && !Stripped(s') {
      var stop :| Protects(s, stop);
      assert Protects(s', stop);
    }
  }

  lemma ExpireKeepsRecord(s: State, a: Action)
    requires Books(s) && RecordCurrent(s) && FlatIsFlat(s)
    ensures RecordCurrent(ExpireStep(s, a)) && FlatIsFlat(ExpireStep(s, a))
  {}

  lemma StepKeepsInv(s: State, a: Action)
    requires Inv(s)
    ensures Inv(Step(s, a))
  {
    if Trails(a) {
      TrailingKeepsBooks(s, a);
      TrailingKeepsProtected(s, a);
      TrailingKeepsRecord(s, a);
    } else if Refreshes(a) {
      RefreshKeepsBooks(s, a);
      RefreshKeepsProtected(s, a);
      RefreshKeepsRecord(s, a);
    } else if Expires(a) {
      ExpireKeepsBooks(s, a);
      ExpireKeepsProtected(s, a);
      ExpireKeepsRecord(s, a);
    } else {
      PositionKeepsBooks(s, a);
      PositionKeepsProtected(s, a);
      PositionKeepsRecord(s, a);
    }
  }

  lemma {:induction false} Reachable(actions: seq<Action>)
    ensures Inv(Exec(actions))
  {
    if actions != [] {
      Reachable(actions[..|actions| - 1]);
      StepKeepsInv(Exec(actions[..|actions| - 1]), actions[|actions| - 1]);
    }
  }

  // ----- What holds of every run -----

  // No live stop was placed for the tracked position.
  ghost predicate Naked(s: State) {
    s.entry.Open? && forall stop | stop in s.live :: !Own(s, stop)
  }

  /** Never unprotected: from the moment a live stop has been recorded for a position until the exchange no longer holds it, every
      interleaving leaves a live stop placed for that very position, except between expiry's cancel and its removal of the entry. */
  lemma AlwaysProtected(actions: seq<Action>)
    ensures var s := Exec(actions);
            && (s.guarded && s.held && !Stripped(s) ==>
                  s.entry.Open? && exists stop :: stop in s.live && stop in s.placedFor && s.placedFor[stop] == s.entry.pos.openedAt)
            && (Naked(s) && s.held ==> !s.guarded || Stripped(s))
  {
    Reachable(actions);
    var s := Exec(actions);
    if s.guarded && s.held && !Stripped(s) {
      var stop :| Protects(s, stop);
    }
  }

  // The only live stop placed for the tracked position.
  ghost predicate LastOwn(s: State, stop: nat) {
    Own(s, stop) && stop in s.live && forall k | k in s.live && Own(s, k) :: k == stop
  }

  // Expiry cancels the stop, or trailing takes it back after expiry has cancelled the recorded one.
  predicate Takes(s: State, a: Action, stop: nat) {
    || (a == ExpireCancelled(true) && s.monitor.XCancelling? && stop == Target(s.monitor.pos))
    || (a == TrailRolledBack(true) && s.trailing.TRollingBack? && stop == s.trailing.ticket.stop && Stripped(s))
  }

  lemma TakenStep(s: State, a: Action, stop: nat)
    requires Inv(s) && s.held && LastOwn(s, stop) && Takes(s, a, stop)
    ensures var s' := Step(s, a); Same(s'.entry, s.entry.pos) && Naked(s')
  {}

  lemma CoveredStep(s: State, a: Action)
    requires Inv(s) && s.guarded && s.held && !Naked(s)
    requires var s' := Step(s, a); Same(s'.entry, s.entry.pos) && Naked(s')
    ensures exists stop :: LastOwn(s, stop) && Takes(s, a, stop)
  {
    var s' := Step(s, a);
    var stop :| stop in s.live && Own(s, stop);
    if a.TrailRolledBack? {
      OnlyOneGoes(s, a, s.trailing.ticket.stop);
      if !Stripped(s) {
        RollbackSpares(s, a);
      }
    } else if a.ExpireCancelled? {
      OnlyOneGoes(s, a, Target(s.monitor.pos));
    } else {
      NothingElseTakes(s, a, stop);
    }
  }

  lemma RollbackSpares(s: State, a: Action)
    requires Inv(s) && s.guarded && s.held && !Stripped(s) && a.TrailRolledBack?
    ensures !Naked(Step(s, a))
  {
    var stop :| Protects(s, stop);
    assert stop in Step(s, a).live && Own(Step(s, a), stop);
  }

  lemma OnlyOneGoes(s: State, a: Action, stop: nat)
    requires a.TrailRolledBack? || a.ExpireCancelled?
    requires if a.TrailRolledBack? then s.trailing.TRollingBack? ==> stop == s.trailing.ticket.stop
             else s.monitor.XCancelling? ==> stop == Target(s.monitor.pos)
    requires !Naked(s) && s.entry.Open? && Naked(Step(s, a))
    ensures LastOwn(s, stop) && a.ok && (if a.TrailRolledBack? then s.trailing.TRollingBack? else s.monitor.XCancelling?)
  {
    var s' := Step(s, a);
    assert s'.entry == s.entry && s'.placedFor == s.placedFor;
    assert forall k | k in s.live && k != stop :: k in s'.live;
    forall k | k in s.live && Own(s, k)
      ensures k == stop
    {
      assert Own(s', k);
    }
  }

  // Whoever else cancels a stop of the position holds another one.
  lemma NothingElseTakes(s: State, a: Action, stop: nat)
    requires Inv(s) && s.held && Own(s, stop) && stop in s.live && !a.TrailRolledBack? && !a.ExpireCancelled?
    requires Same(Step(s, a).entry, s.entry.pos)
    ensures !Naked(Step(s, a))
  {
    var s' := Step(s, a);
    if a.TrailCancelled? && stop !in s'.live {
      assert s.trailing.ticket.stop in s'.live && Own(s', s.trailing.ticket.stop);
    } else if a.RefreshCancelled? && stop !in s'.live {
      assert s.monitor.ticket.stop in s'.live && Own(s', s.monitor.ticket.stop);
    } else {
      OthersCancelNothing(s, a, stop);
    }
  }

  lemma OthersCancelNothing(s: State, a: Action, stop: nat)
    requires Inv(s) && s.held && Own(s, stop) && stop in s.live && !a.TrailRolledBack? && !a.ExpireCancelled?
    requires Same(Step(s, a).entry, s.entry.pos) && ((a.TrailCancelled? || a.RefreshCancelled?) ==> stop in Step(s, a).live)
    ensures stop in Step(s, a).live && Own(Step(s, a), stop)
  {
    if Trails(a) {
      TrailingSpares(s, a, stop);
    } else if Refreshes(a) {
      RefreshSpares(s, a, stop);
    }
  }

  lemma TrailingSpares(s: State, a: Action, stop: nat)
    requires Inv(s) && Own(s, stop) && stop in s.live && !a.TrailRolledBack?
    requires a.TrailCancelled? ==> stop in TrailingStep(s, a).live
    ensures stop in TrailingStep(s, a).live && Own(TrailingStep(s, a), stop)
  {}

  lemma RefreshSpares(s: State, a: Action, stop: nat)
    requires Inv(s) && Own(s, stop) && stop in s.live
    requires a.RefreshCancelled? ==> stop in RefreshStep(s, a).live
    ensures stop in RefreshStep(s, a).live && Own(RefreshStep(s, a), stop)
  {}

  lemma GuardStep(s: State, a: Action)
    requires Inv(s) && s.guarded
    ensures s.entry.Open? && (Step(s, a).guarded <==> Same(Step(s, a).entry, s.entry.pos))
  {
    if Trails(a) {
      TrailingFrame(s, a);
    } else if Refreshes(a) {
      GuardRefresh(s, a);
    } else if Expires(a) {
      GuardExpire(s, a);
    }
  }

  lemma GuardRefresh(s: State, a: Action)
    requires s.guarded && s.entry.Open?
    ensures RefreshStep(s, a).guarded && Same(RefreshStep(s, a).entry, s.entry.pos)
  {}

  lemma GuardExpire(s: State, a: Action)
    requires s.guarded && s.entry.Open?
    ensures var s' := ExpireStep(s, a); s'.guarded <==> Same(s'.entry, s.entry.pos)
  {}

  /** The guard lasts exactly as long as the position is tracked, and a guarded, held position loses its last live stop in exactly
      two ways: expiry cancels it, or trailing takes its replacement back after expiry has cancelled the recorded stop. */
  lemma GuardLasts(actions: seq<Action>, a: Action)
    requires Exec(actions).guarded
    ensures var s, s' := Exec(actions), Exec(actions + [a]);
            && s.entry.Open? && (s'.guarded <==> Same(s'.entry, s.entry.pos))
            && (s.held && !Naked(s) ==>
                  (Same(s'.entry, s.entry.pos) && Naked(s') <==> exists stop :: LastOwn(s, stop) && Takes(s, a, stop)))
  {
    Reachable(actions);
    ExecAppend(actions, a);
    var s, s' := Exec(actions), Exec(actions + [a]);
    GuardStep(s, a);
    if s.held && !Naked(s) {
      if Same(s'.entry, s.entry.pos) && Naked(s') {
        CoveredStep(s, a);
      }
      forall stop | LastOwn(s, stop) && Takes(s, a, stop)
        ensures Same(s'.entry, s.entry.pos) && Naked(s')
      {
        TakenStep(s, a, stop);
      }
    }
  }

  lemma ExecAppend(actions: seq<Action>, a: Action)
    ensures Exec(actions + [a]) == Step(Exec(actions), a)
  {
    assert (actions + [a])[..|actions|] == actions;
  }

  /** With neither actor holding an unrecorded stop, a recorded stop that was placed for this position is live as long as the
      exchange holds it, unless expiry has just cancelled it. */
  lemma RecordedStopIsLive(actions: seq<Action>)
    requires var s := Exec(actions); OwnRecord(s) && s.held && !TrailHasTicket(s) && !RefreshHasTicket(s)
    ensures Target(Exec(actions).entry.pos) in Exec(actions).live || Stripped(Exec(actions))
  {
    Reachable(actions);
  }

  // ----- Expiry -----

  // The end of an expiry: the close is answered, the recorded stop cancelled, the entry removed.
  function Expired(s: State, reply: CloseReply, ok: bool): State {
    var closed := Step(s, ExpireClosed(reply));
    if reply == Unanswered then closed else Step(Step(closed, ExpireCancelled(ok)), ExpireRemove)
  }

  /** A rejected close is taken for a close: of a position the exchange still holds, the stop is cancelled and the entry dropped
      exactly when the exchange accepted or rejected the close, and the position is still there unless it accepted. */
  lemma ExpiryPass(actions: seq<Action>, reply: CloseReply, ok: bool)
    requires var s := Exec(actions);
             s.monitor.XClosing? && Same(s.entry, s.monitor.pos) && s.held && KnowsStop(s.monitor.pos)
             && CanAnswer(s, Target(s.monitor.pos), ok)
    ensures var s := Exec(actions);
            var s' := Expired(s, reply, ok);
            && (s'.entry.NoEntry? <==> reply != Unanswered)
            && (s'.held <==> reply != Accepted)
            && (s'.held && s'.entry.NoEntry? <==> reply == Rejected)
            && s'.live == if reply != Unanswered && ok then s.live - {Target(s.monitor.pos)} else s.live
  {
    if reply != Unanswered {
      ExpiryEnds(Exec(actions), Exec(actions).monitor.pos, reply, ok);
    }
  }

  lemma ExpiryEnds(s: State, p: Pos, reply: CloseReply, ok: bool)
    requires s.monitor == XClosing(p) && Same(s.entry, p) && KnowsStop(p) && CanAnswer(s, Target(p), ok) && reply != Unanswered
    ensures Expired(s, reply, ok) ==
            s.(entry := NoEntry, held := s.held && reply == Rejected, live := if ok then s.live - {Target(p)} else s.live,
               monitor := MIdle, guarded := false)
  {
    var closed := Step(s, ExpireClosed(reply));
    assert closed == s.(held := s.held && reply == Rejected, monitor := XCancelling(p, reply == Accepted));
    assert Step(closed, ExpireCancelled(ok)) == Cancel(closed, Target(p), ok).(monitor := XRemoving(p, reply == Accepted, ok));
  }

  /** Whatever runs in between, an expiry that drops the entry of a position the exchange still holds had its close rejected. */
  lemma DroppedWhileHeld(actions: seq<Action>)
    requires var s := Exec(actions); s.monitor.XRemoving? && s.held
    ensures var s := Exec(actions);
            var s' := Step(s, ExpireRemove);
            s.entry.Open? && s'.entry.NoEntry? <==> Same(s.entry, s.monitor.pos) && !s.monitor.flat
  {
    Reachable(actions);
  }

  // Open a protected position, have it expire and its close rejected.
  function RejectedExpiry(long: bool, trails: bool, level: real, reported: bool): seq<Action> {
    [] + [Reserve] + [Commit(long, trails, level, reported)] + [ExpireStart] + [ExpireCheck] + [ExpireQueried(true)]
    + [ExpireClosed(Rejected)] + [ExpireCancelled(true)] + [ExpireRemove]
  }

  /** One rejected close leaves a position on the exchange without a stop and without an entry. */
  lemma RejectedCloseAbandons(long: bool, trails: bool, level: real, reported: bool)
    ensures Exec(RejectedExpiry(long, trails, level, reported)) == State(NoEntry, true, {}, map[2 := 1], 3, TIdle, MIdle, false)
  {
    var p := Recorded(Pos(1, long, trails, level, 0, 0), Ticket(2, reported, level));
    var open := [] + [Reserve] + [Commit(long, trails, level, reported)];
    Opened(long, trails, level, reported);
    ExecAppend(open, ExpireStart);
    ExecAppend(open + [ExpireStart], ExpireCheck);
    ExecAppend(open + [ExpireStart] + [ExpireCheck], ExpireQueried(true));
    var asked := open + [ExpireStart] + [ExpireCheck] + [ExpireQueried(true)];
    assert Exec(asked) == State(Open(p), true, {2}, map[2 := 1], 3, TIdle, XClosing(p), true);
    ExecAppend(asked, ExpireClosed(Rejected));
    ExecAppend(asked + [ExpireClosed(Rejected)], ExpireCancelled(true));
    ExecAppend(asked + [ExpireClosed(Rejected)] + [ExpireCancelled(true)], ExpireRemove);
    ExpiryEnds(Exec(asked), p, Rejected, true);
  }

  lemma Opened(long: bool, trails: bool, level: real, reported: bool)
    ensures Exec([] + [Reserve] + [Commit(long, trails, level, reported)]) ==
            State(Open(Recorded(Pos(1, long, trails, level, 0, 0), Ticket(2, reported, level))), true, {2}, map[2 := 1], 3, TIdle, MIdle, true)
  {
    ExecAppend([], Reserve);
    ExecAppend([] + [Reserve], Commit(long, trails, level, reported));
  }

  // No stop is known or was ever placed for the position with the stamp, and nobody is about to place one.
  ghost predicate Bare(s: State, stamp: nat) {
    && stamp < s.next && (forall k | k in s.placedFor :: s.placedFor[k] != stamp)
    && (s.entry.Open? && s.entry.pos.openedAt == stamp ==> !KnowsStop(s.entry.pos) && !s.entry.pos.trails)
    && (!s.trailing.TIdle? && s.trailing.pos.openedAt == stamp ==> s.trailing.TChosen? && !s.trailing.pos.trails)
    && (s.monitor.RPlacing? || RefreshHasTicket(s) ==>
          s.monitor.pos.openedAt != stamp && !(s.entry.Open? && s.entry.pos.openedAt == stamp))
  }

  lemma BareStep(s: State, a: Action, stamp: nat)
    requires Bare(s, stamp)
    ensures Bare(Step(s, a), stamp)
  {
    if Trails(a) {
      BareTrailing(s, a, stamp);
    } else if Refreshes(a) {
      BareRefresh(s, a, stamp);
    } else if Expires(a) {
      BareExpire(s, a, stamp);
    }
  }

  lemma BareTrailing(s: State, a: Action, stamp: nat)
    requires Bare(s, stamp)
    ensures Bare(TrailingStep(s, a), stamp)
  {}

  lemma BareExpire(s: State, a: Action, stamp: nat)
    requires Bare(s, stamp)
    ensures Bare(ExpireStep(s, a), stamp)
  {}

  lemma BareRefresh(s: State, a: Action, stamp: nat)
    requires Bare(s, stamp)
    ensures Bare(RefreshStep(s, a), stamp)
  {}

  /** A position recovered from a snapshot never gets a stop, whatever happens next. */
  lemma {:induction false} RecoveredStaysNaked(before: seq<Action>, long: bool, actions: seq<Action>)
    requires var s := Exec(before); s.entry.NoEntry? && s.monitor.MIdle?
    ensures var s := ExecFrom(Step(Exec(before), Recover(long)), actions);
            s.entry.Open? && s.entry.pos.openedAt == Exec(before).next ==> Naked(s) && !KnowsStop(s.entry.pos)
  {
    RecoveredStaysBare(before, long, actions);
    var s0 := Step(Exec(before), Recover(long));
    Reachable(before + [Recover(long)]);
    ExecAppend(before, Recover(long));
    LiveWerePlaced(s0, actions);
  }

  lemma {:induction false} RecoveredStaysBare(before: seq<Action>, long: bool, actions: seq<Action>)
    requires var s := Exec(before); s.entry.NoEntry? && s.monitor.MIdle?
    ensures Bare(ExecFrom(Step(Exec(before), Recover(long)), actions), Exec(before).next)
  {
    Reachable(before);
    if actions != [] {
      RecoveredStaysBare(before, long, actions[..|actions| - 1]);
      BareStep(ExecFrom(Step(Exec(before), Recover(long)), actions[..|actions| - 1]), actions[|actions| - 1], Exec(before).next);
    }
  }

  lemma {:induction false} LiveWerePlaced(s: State, actions: seq<Action>)
    requires Inv(s)
    ensures Inv(ExecFrom(s, actions))
  {
    if actions != [] {
      LiveWerePlaced(s, actions[..|actions| - 1]);
      StepKeepsInv(ExecFrom(s, actions[..|actions| - 1]), actions[|actions| - 1]);
    }
  }

  // ----- When the record is the position's own -----

  /** The refresh records without a second look at the position; that is right exactly when the position did not change. */
  lemma RefreshRecordsOwn(actions: seq<Action>)
    requires var s := Exec(actions); s.monitor.RRecording? && s.entry.Open?
    ensures var s := Exec(actions); OwnRecord(Step(s, RefreshRecord)) <==> Same(s.entry, s.monitor.pos)
  {
    Reachable(actions);
    RecordedByRefresh(Exec(actions));
  }

  predicate Opens(s: State, a: Action) {
    ((a.Commit? || a.CommitUnprotected?) && s.entry.InFlight?) || (a.Recover? && s.entry.NoEntry? && s.monitor.MIdle?)
  }

  predicate RefreshRecords(s: State, a: Action) { a.RefreshRecord? && s.monitor.RRecording? && s.entry.Open? }

  predicate TrailRecords(s: State, a: Action) { a.TrailRecord? && s.trailing.TRecording? && Same(s.entry, s.trailing.pos) }

  // The last recording since the present position was opened was a refresh begun for another position.
  predicate LastRecordForeign(actions: seq<Action>) {
    actions != [] &&
    var s, a := Exec(actions[..|actions| - 1]), actions[|actions| - 1];
    if RefreshRecords(s, a) then !Same(s.entry, s.monitor.pos)
    else !Opens(s, a) && !TrailRecords(s, a) && LastRecordForeign(actions[..|actions| - 1])
  }

  lemma RecordStep(s: State, a: Action, foreign: bool)
    requires Inv(s) && (s.guarded ==> (OwnRecord(s) <==> !foreign))
    ensures var s' := Step(s, a);
            var foreign' := if RefreshRecords(s, a) then !Same(s.entry, s.monitor.pos) else !Opens(s, a) && !TrailRecords(s, a) && foreign;
            s'.guarded ==> (OwnRecord(s') <==> !foreign')
  {
    if RefreshRecords(s, a) {
      RecordedByRefresh(s);
    } else if TrailRecords(s, a) {
      RecordedByTrailing(s);
    } else if Opens(s, a) {
      RecordedAtOpening(s, a);
    } else {
      OtherStepsKeepRecord(s, a);
    }
  }

  lemma RecordedByRefresh(s: State)
    requires Inv(s) && s.monitor.RRecording? && s.entry.Open?
    ensures OwnRecord(Step(s, RefreshRecord)) <==> Same(s.entry, s.monitor.pos)
  {}

  lemma RecordedByTrailing(s: State)
    requires Inv(s) && s.trailing.TRecording? && Same(s.entry, s.trailing.pos)
    ensures OwnRecord(Step(s, TrailRecord))
  {}

  lemma RecordedAtOpening(s: State, a: Action)
    requires Inv(s) && Opens(s, a)
    ensures Step(s, a).guarded ==> OwnRecord(Step(s, a))
  {}

  lemma OtherStepsKeepRecord(s: State, a: Action)
    requires Inv(s) && !RefreshRecords(s, a) && !TrailRecords(s, a) && !Opens(s, a)
    ensures var s' := Step(s, a); s'.guarded ==> s.guarded && s'.entry == s.entry && (OwnRecord(s') <==> OwnRecord(s))
  {
    if Trails(a) {
      TrailingKeepsOwn(s, a);
    } else if Refreshes(a) {
      RefreshKeepsOwn(s, a);
    }
  }

  lemma TrailingKeepsOwn(s: State, a: Action)
    requires Inv(s) && !TrailRecords(s, a)
    ensures var s' := TrailingStep(s, a); s'.guarded == s.guarded && s'.entry == s.entry && (OwnRecord(s') <==> OwnRecord(s))
  {}

  lemma RefreshKeepsOwn(s: State, a: Action)
    requires Inv(s) && !RefreshRecords(s, a)
    ensures var s' := RefreshStep(s, a); s'.guarded ==> s.guarded && s'.entry == s.entry && (OwnRecord(s') <==> OwnRecord(s))
  {}

  /** After any run the record of a guarded position names a stop of its own exactly when the last recording since it was
      opened was not a refresh begun for another position. */
  lemma {:induction false} RecordIsOwn(actions: seq<Action>)
    requires Exec(actions).guarded
    ensures OwnRecord(Exec(actions)) <==> !LastRecordForeign(actions)
  {
    RecordTracked(actions);
  }

  lemma {:induction false} RecordTracked(actions: seq<Action>)
    ensures Exec(actions).guarded ==> (OwnRecord(Exec(actions)) <==> !LastRecordForeign(actions))
  {
    if actions != [] {
      var front := actions[..|actions| - 1];
      RecordTracked(front);
      Reachable(front);
      RecordStep(Exec(front), actions[|actions| - 1], LastRecordForeign(front));
    }
  }

  // No position is opened while a refresh begun for an earlier one is still suspended.
  ghost predicate Orderly(actions: seq<Action>) {
    forall k | 0 <= k < |actions| && Opens(Exec(actions[..k]), actions[k]) ::
      !Exec(actions[..k]).monitor.RPlacing? && !RefreshHasTicket(Exec(actions[..k]))
  }

  // A suspended refresh was begun for the position tracked now, if any.
  predicate RefreshesPresent(s: State) {
    s.entry.Open? && (s.monitor.RPlacing? || RefreshHasTicket(s)) ==> Same(s.entry, s.monitor.pos)
  }

  lemma OrderlyStep(s: State, a: Action)
    requires RefreshesPresent(s) && (Opens(s, a) ==> !s.monitor.RPlacing? && !RefreshHasTicket(s))
    ensures RefreshesPresent(Step(s, a))
  {
    if Trails(a) {
      OrderlyTrailing(s, a);
    } else if Refreshes(a) {
      OrderlyRefresh(s, a);
    } else if Expires(a) {
      OrderlyExpire(s, a);
    }
  }

  lemma OrderlyTrailing(s: State, a: Action)
    requires RefreshesPresent(s)
    ensures RefreshesPresent(TrailingStep(s, a))
  {}

  lemma OrderlyRefresh(s: State, a: Action)
    requires RefreshesPresent(s)
    ensures RefreshesPresent(RefreshStep(s, a))
  {}

  lemma OrderlyExpire(s: State, a: Action)
    requires RefreshesPresent(s)
    ensures RefreshesPresent(ExpireStep(s, a))
  {}

  lemma {:induction false} OrderlyHasNoForeign(actions: seq<Action>)
    requires Orderly(actions)
    ensures RefreshesPresent(Exec(actions)) && !LastRecordForeign(actions)
  {
    if actions != [] {
      var before := actions[..|actions| - 1];
      assert forall k | 0 <= k < |before| :: before[..k] == actions[..k];
      OrderlyHasNoForeign(before);
      OrderlyStep(Exec(before), actions[|actions| - 1]);
    }
  }

  /** With both actors idle, the recorded stop of a guarded and held position is a live stop of its own exactly when its last
      recording was not a refresh begun for another position; in particular whenever no position is opened under a refresh. */
  lemma IdleRecordIsLive(actions: seq<Action>)
    requires var s := Exec(actions); s.guarded && s.held && s.trailing.TIdle? && s.monitor.MIdle?
    ensures var s := Exec(actions);
            && s.entry.Open?
            && (OwnRecord(s) && Target(s.entry.pos) in s.live <==> !LastRecordForeign(actions))
            && (Orderly(actions) ==> OwnRecord(s) && Target(s.entry.pos) in s.live)
  {
    Reachable(actions);
    RecordIsOwn(actions);
    if OwnRecord(Exec(actions)) {
      RecordedStopIsLive(actions);
    }
    if Orderly(actions) {
      OrderlyHasNoForeign(actions);
    }
  }

  // A position is opened, its stop refreshed, and it goes; the next one is being opened before the refresh records.
  function OvertakenRefresh(level: real): seq<Action> {
    [] + [Reserve] + [Commit(true, true, 1.0, true)] + [RefreshStart(level)] + [RefreshPlaced(true, true)]
    + [RefreshCancelled(true)] + [Close] + [Remove] + [Reserve]
  }

  lemma OvertakenRefreshState(level: real)
    ensures var p := Recorded(Pos(1, true, true, 1.0, 0, 0), Ticket(2, true, 1.0));
            Exec(OvertakenRefresh(level)) ==
            State(InFlight, false, {3}, map[2 := 1, 3 := 1], 4, TIdle, RRecording(p, Ticket(3, true, level)), false)
  {
    var p := Recorded(Pos(1, true, true, 1.0, 0, 0), Ticket(2, true, 1.0));
    var open := [] + [Reserve] + [Commit(true, true, 1.0, true)];
    Opened(true, true, 1.0, true);
    ExecAppend(open, RefreshStart(level));
    ExecAppend(open + [RefreshStart(level)], RefreshPlaced(true, true));
    var placed := open + [RefreshStart(level)] + [RefreshPlaced(true, true)];
    assert Exec(placed) == State(Open(p), true, {2, 3}, map[2 := 1, 3 := 1], 4, TIdle, RCancelling(p, Ticket(3, true, level)), true);
    ExecAppend(placed, RefreshCancelled(true));
    ExecAppend(placed + [RefreshCancelled(true)], Close);
    var closed := placed + [RefreshCancelled(true)] + [Close];
    assert Exec(closed) == State(Open(p), false, {3}, map[2 := 1, 3 := 1], 4, TIdle, RRecording(p, Ticket(3, true, level)), true);
    ExecAppend(closed, Remove);
    ExecAppend(closed + [Remove], Reserve);
  }

  /** Such a run exists: the next position records its predecessor's stop, and when that lapses the recorded stop of a guarded,
      held position is dead while both actors are idle. */
  lemma DeadRecordReached(level: real)
    ensures var s := Exec(OvertakenRefresh(level) + [Commit(true, true, 1.0, true)] + [RefreshRecord] + [Lapse(3)]);
            && s.guarded && s.held && s.trailing.TIdle? && s.monitor.MIdle?
            && s.entry.Open? && Target(s.entry.pos) == 3 && 3 !in s.live && !Own(s, 3)
  {
    OvertakenRefreshState(level);
    var run := OvertakenRefresh(level);
    ExecAppend(run, Commit(true, true, 1.0, true));
    ExecAppend(run + [Commit(true, true, 1.0, true)], RefreshRecord);
    ExecAppend(run + [Commit(true, true, 1.0, true)] + [RefreshRecord], Lapse(3));
    var p := Recorded(Pos(4, true, true, 1.0, 0, 0), Ticket(5, true, 1.0));
    var s := Exec(run + [Commit(true, true, 1.0, true)]);
    assert s.entry == Open(p) && s.live == {3, 5} && s.placedFor == map[2 := 1, 3 := 1, 5 := 4];
  }

  /** A position opened between the refresh's cancel and its recording, and only such a one, records its predecessor's stop at
      once; when that stop lapses, the recorded stop is dead. */
  lemma StaleRefreshMisrecords(actions: seq<Action>, long: bool, trails: bool, level: real, reported: bool)
    requires Exec(actions).entry.InFlight?
    ensures var s := Exec(actions);
            var s' := Step(Step(s, Commit(long, trails, level, reported)), RefreshRecord);
            && s'.guarded && s'.entry.Open?
            && (OwnRecord(s') <==> !s.monitor.RRecording?)
            && (s.monitor.RRecording? ==>
                  && Target(s'.entry.pos) == s.monitor.ticket.stop
                  && Target(s'.entry.pos) !in Step(s', Lapse(s.monitor.ticket.stop)).live)
  {
    Reachable(actions);
    var s, a := Exec(actions), Commit(long, trails, level, reported);
    OpenedUnderRefresh(s, a);
    RefreshRecordsOver(Step(s, a));
  }

  // The refresh records a stop that is not the present position's over one that is.
  lemma RefreshRecordsOver(s: State)
    requires s.entry.Open? && s.guarded && OwnRecord(s)
    requires s.monitor.RRecording? ==> s.monitor.ticket.stop > 0 && !Own(s, s.monitor.ticket.stop)
    ensures var s' := Step(s, RefreshRecord);
            && s'.guarded && s'.entry.Open? && (OwnRecord(s') <==> !s.monitor.RRecording?)
            && (s.monitor.RRecording? ==>
                  && Target(s'.entry.pos) == s.monitor.ticket.stop
                  && Target(s'.entry.pos) !in Step(s', Lapse(s.monitor.ticket.stop)).live)
  {}

  lemma OpenedUnderRefresh(s: State, a: Action)
    requires Inv(s) && s.entry.InFlight? && a.Commit?
    ensures var s1 := Step(s, a);
            && s1.monitor == s.monitor && s1.entry.Open? && s1.guarded && s1.entry.pos.openedAt == s.next
            && OwnRecord(s1) && forall k | k in s.placedFor :: k in s1.placedFor && !Own(s1, k)
  {}

  // ----- What trailing alone can do -----

  predicate AllTrail(actions: seq<Action>) { forall a | a in actions :: Trails(a) }

  // The position's record names a live stop of its own placed since.
  predicate Replaced(s: State, s': State) {
    s.entry.Open? && Same(s'.entry, s.entry.pos) && OwnRecord(s') && Target(s'.entry.pos) in s'.live && Target(s'.entry.pos) >= s.next
  }

  ghost predicate CanReplace(s: State) { exists actions :: AllTrail(actions) && Replaced(s, ExecFrom(s, actions)) }

  // What lets trailing replace the recorded stop: it is enabled, and that stop is live or there is none and no level either.
  predicate Replaceable(s: State, p: Pos) { p.trails && if KnowsStop(p) then Target(p) in s.live else p.level <= 0.0 }

  // Trailing has got no further than the recorded stop of p allows.
  ghost predicate Stuck(s: State, p: Pos) {
    && s.entry == Open(p) && Target(p) < s.next && !Replaceable(s, p)
    && (s.trailing.TIdle? || (s.trailing.pos == p && !s.trailing.TRecording?))
    && ((p.trails && KnowsStop(p)) || s.trailing.TIdle? || s.trailing.TChosen?)
  }

  lemma StuckStep(s: State, p: Pos, a: Action)
    requires Stuck(s, p) && Trails(a)
    ensures Stuck(Step(s, a), p)
  {}

  lemma {:induction false} StuckRun(s: State, p: Pos, actions: seq<Action>)
    requires Stuck(s, p) && AllTrail(actions)
    ensures Stuck(ExecFrom(s, actions), p)
  {
    if actions != [] {
      var front, last := actions[..|actions| - 1], actions[|actions| - 1];
      assert last in actions;
      StuckRun(s, p, front);
      StuckStep(ExecFrom(s, front), p, last);
    }
  }

  function BetterLevel(p: Pos): real {
    if p.level <= 0.0 then 1.0 else if p.long then p.level + 1.0 else p.level / 2.0
  }

  // One full replacement; without a stop to cancel, the answer to a cancel is ignored.
  function Replacement(p: Pos): seq<Action> {
    [] + [TrailStart] + [TrailCheck(Some(BetterLevel(p)))] + [TrailPlaced(true, true)] + [TrailCancelled(true)] + [TrailRecord]
  }

  lemma ExecFromAppend(s: State, actions: seq<Action>, a: Action)
    ensures ExecFrom(s, actions + [a]) == Step(ExecFrom(s, actions), a)
  {
    assert (actions + [a])[..|actions|] == actions;
  }

  lemma ReplacementWorks(s: State, p: Pos)
    requires Inv(s) && s.entry == Open(p) && s.trailing.TIdle? && Replaceable(s, p)
    ensures AllTrail(Replacement(p)) && Replaced(s, ExecFrom(s, Replacement(p)))
  {
    var level := BetterLevel(p);
    var checked := [] + [TrailStart] + [TrailCheck(Some(level))];
    ReplacementChecked(s, p);
    ExecFromAppend(s, checked, TrailPlaced(true, true));
    ExecFromAppend(s, checked + [TrailPlaced(true, true)], TrailCancelled(true));
    ExecFromAppend(s, checked + [TrailPlaced(true, true)] + [TrailCancelled(true)], TrailRecord);
    ReplacementRecorded(s, p, s.(trailing := TPlacing(p, level)));
  }

  lemma ReplacementChecked(s: State, p: Pos)
    requires s.entry == Open(p) && s.trailing.TIdle? && Replaceable(s, p)
    ensures ExecFrom(s, [] + [TrailStart] + [TrailCheck(Some(BetterLevel(p)))]) == s.(trailing := TPlacing(p, BetterLevel(p)))
  {
    ExecFromAppend(s, [], TrailStart);
    ExecFromAppend(s, [] + [TrailStart], TrailCheck(Some(BetterLevel(p))));
    assert MayTrail(p, BetterLevel(p));
  }

  lemma ReplacementRecorded(s: State, p: Pos, s1: State)
    requires Inv(s) && s.entry == Open(p) && Replaceable(s, p) && s1 == s.(trailing := TPlacing(p, BetterLevel(p)))
    ensures Replaced(s, Step(Step(Step(s1, TrailPlaced(true, true)), TrailCancelled(true)), TrailRecord))
  {
    var s2 := Step(s1, TrailPlaced(true, true));
    var t := Ticket(s.next, true, BetterLevel(p));
    assert s2.live == s.live + {s.next} && s2.placedFor == s.placedFor[s.next := p.openedAt] && s2.entry == s.entry;
    var s3 := Step(s2, TrailCancelled(true));
    assert s3.trailing == TRecording(p, t) && s3.entry == s.entry && s3.placedFor == s2.placedFor && s.next in s3.live;
  }

  /** Trailing alone can give a tracked position a live stop of its own exactly when trailing is enabled for it and either its
      recorded stop is live, or it records neither a stop nor a level. */
  lemma TrailingReplaces(before: seq<Action>)
    requires var s := Exec(before); s.entry.Open? && s.trailing.TIdle?
    ensures var s := Exec(before); CanReplace(s) <==> Replaceable(s, s.entry.pos)
  {
    Reachable(before);
    var s := Exec(before);
    var p := s.entry.pos;
    if Replaceable(s, p) {
      ReplacementWorks(s, p);
    } else {
      forall actions | AllTrail(actions)
        ensures !Replaced(s, ExecFrom(s, actions))
      {
        StuckRun(s, p, actions);
      }
    }
  }

  /** A position tracked without a live stop, as after a failed leg, never gets one from trailing if it records an id or a level:
      trailing cannot cancel what does not exist and does not start without an id. */
  lemma FailedStopIsNeverReplaced(before: seq<Action>, long: bool, trails: bool, level: real, recordsFailedId: bool)
    requires var s := Exec(before); s.entry.InFlight? && s.trailing.TIdle?
    ensures var s0 := Step(Exec(before), CommitUnprotected(long, trails, level, recordsFailedId));
            && s0.entry.Open? && s0.held && Naked(s0)
            && (CanReplace(s0) <==> trails && !recordsFailedId && level <= 0.0)
            && (recordsFailedId || level > 0.0 ==> forall actions | AllTrail(actions) :: Stuck(ExecFrom(s0, actions), s0.entry.pos))
  {
    var a := CommitUnprotected(long, trails, level, recordsFailedId);
    Reachable(before);
    ExecAppend(before, a);
    TrailingReplaces(before + [a]);
    var s0 := Step(Exec(before), a);
    if recordsFailedId || level > 0.0 {
      forall actions | AllTrail(actions)
        ensures Stuck(ExecFrom(s0, actions), s0.entry.pos)
      {
        StuckRun(s0, s0.entry.pos, actions);
      }
    }
  }

  // ----- Where trailing moves the level -----

  // What trailing is about to record beats the level it started from, and a position keeps its side.
  ghost predicate Advancing(s: State) {
    && (s.trailing.TPlacing? ==> TrailingStop.Favorable(Side(s.trailing.pos), s.trailing.pos.level, s.trailing.level))
    && (TrailHasTicket(s) ==> TrailingStop.Favorable(Side(s.trailing.pos), s.trailing.pos.level, s.trailing.ticket.level))
    && (!s.trailing.TIdle? && Same(s.entry, s.trailing.pos) ==> s.trailing.pos.long == s.entry.pos.long)
  }

  lemma AdvancingStep(s: State, a: Action)
    requires Books(s) && Advancing(s)
    ensures Advancing(Step(s, a))
  {
    if Trails(a) {
      AdvancingTrailing(s, a);
    }
  }

  lemma AdvancingTrailing(s: State, a: Action)
    requires Advancing(s)
    ensures Advancing(TrailingStep(s, a))
  {}

  lemma {:induction false} AdvancingReachable(actions: seq<Action>)
    ensures Advancing(Exec(actions))
  {
    if actions != [] {
      AdvancingReachable(actions[..|actions| - 1]);
      Reachable(actions[..|actions| - 1]);
      AdvancingStep(Exec(actions[..|actions| - 1]), actions[|actions| - 1]);
    }
  }

  /** Under every interleaving, the level trailing records beats the one it started from; so it beats the recorded one too, unless a
      refresh has put another level in its place meanwhile. */
  lemma TrailingAdvances(actions: seq<Action>)
    requires TrailRecords(Exec(actions), TrailRecord)
    ensures var s := Exec(actions);
            var p, p' := s.entry.pos, Step(s, TrailRecord).entry.pos;
            && TrailingStop.Favorable(Side(p), s.trailing.pos.level, p'.level)
            && (p.level == s.trailing.pos.level ==> TrailingStop.Favorable(Side(p), p.level, p'.level))
  {
    AdvancingReachable(actions);
  }

  // ----- A lost answer -----

  // A cancel that takes effect on the exchange although its answer is a failure.
  function CancelWithLostAnswer(s: State): State
    requires s.trailing.TCancelling?
  {
    s.(live := s.live - {Target(s.trailing.pos)}, trailing := TRollingBack(s.trailing.pos, s.trailing.ticket))
  }

  // Open a protected position and let trailing get as far as cancelling its stop.
  function FirstReplacement(reported: bool): seq<Action> {
    [] + [Reserve] + [Commit(true, true, 1.0, reported)] + [TrailStart] + [TrailCheck(Some(2.0))] + [TrailPlaced(true, reported)]
  }

  lemma FirstReplacementState(reported: bool)
    ensures var p := Recorded(Pos(1, true, true, 1.0, 0, 0), Ticket(2, reported, 1.0));
            Exec(FirstReplacement(reported)) ==
            State(Open(p), true, {2, 3}, map[2 := 1, 3 := 1], 4, TCancelling(p, Ticket(3, reported, 2.0)), MIdle, true)
  {
    var open := [] + [Reserve] + [Commit(true, true, 1.0, reported)];
    Opened(true, true, 1.0, reported);
    ExecAppend(open, TrailStart);
    ExecAppend(open + [TrailStart], TrailCheck(Some(2.0)));
    ExecAppend(open + [TrailStart] + [TrailCheck(Some(2.0))], TrailPlaced(true, reported));
  }

  /** Protection rests on a failed cancel having no effect: if its answer alone is lost, trailing takes the
      replacement back and a guarded position is left with no stop at all. */
  lemma LostAnswerLeavesNoStop(reported: bool)
    ensures var s := Exec(FirstReplacement(reported));
            && s.trailing.TCancelling? && s.guarded && s.held
            && Step(CancelWithLostAnswer(s), TrailRolledBack(true)).guarded
            && Step(CancelWithLostAnswer(s), TrailRolledBack(true)).held
            && Step(CancelWithLostAnswer(s), TrailRolledBack(true)).live == {}
  {
    FirstReplacementState(reported);
  }
}
