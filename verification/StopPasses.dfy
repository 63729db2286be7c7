/** What one pass of each user of a stop does when nobody else moves in between: trailing, the refresh after an averaging-down
    fill, expiry, and the opening (the steps are those of `StopProtection`). */
module StopPasses {
  import opened Common
  import opened StopProtection

  // The stop on record, by order id if it was reported, else by client id; 0 for none.
  function RecordedStop(p: Pos): nat { if p.slOrderId != 0 then p.slOrderId else p.slClientId }

  // The state with one more stop, placed for the present position.
  function WithStop(s: State): State
    requires s.entry.Open?
  {
    s.(live := s.live + {s.next}, placedFor := s.placedFor[s.next := s.entry.pos.openedAt], next := s.next + 1)
  }

  // That stop on record, at its level.
  function OnRecord(s: State, stop: nat, reported: bool, level: real): State
    requires s.entry.Open?
  {
    s.(entry := Open(s.entry.pos.(slOrderId := if reported then stop else 0, slClientId := stop, level := level)), guarded := true)
  }

  function Without(s: State, stop: nat, gone: bool): State { if gone then s.(live := s.live - {stop}) else s }

  // ----- Trailing -----

  function TrailPass(s: State, proposal: Option<real>, placed: bool, reported: bool, cancelled: bool, undone: bool): State {
    var s1 := Step(Step(s, TrailStart), TrailCheck(proposal));
    if s1.trailing.TIdle? then s1
    else
      var s2 := Step(s1, TrailPlaced(placed, reported));
      if s2.trailing.TIdle? then s2
      else
        var s3 := if s2.trailing.TCancelling? then Step(s2, TrailCancelled(cancelled)) else s2;
        if s3.trailing.TRollingBack? then Step(s3, TrailRolledBack(undone)) else Step(s3, TrailRecord)
  }

  // The level is nearer the market than the one on record, if there is one, and a stop that would stay behind is known.
  predicate Advances(p: Pos, level: real) {
    && p.trails && level > 0.0
    && if p.level > 0.0 then (if p.long then level > p.level else level < p.level) && RecordedStop(p) > 0 else true
  }

  /** Undisturbed, trailing places a stop exactly at a level that advances; it takes the place of the recorded one, unless that
      cannot be cancelled: then the new one is taken back, or stays beside it if that fails too, and nothing is recorded. */
  lemma TrailPassEnds(actions: seq<Action>, proposal: Option<real>, placed: bool, reported: bool, cancelled: bool, undone: bool)
    requires var s := Exec(actions);
             s.trailing.TIdle? && s.entry.Open? && (cancelled ==> RecordedStop(s.entry.pos) in s.live)
    ensures var s, s' := Exec(actions), TrailPass(Exec(actions), proposal, placed, reported, cancelled, undone);
            var recorded := RecordedStop(s.entry.pos);
            if proposal.None? || !Advances(s.entry.pos, proposal.value) || !placed then s' == s
            else if recorded == 0 || cancelled then s' == OnRecord(Without(WithStop(s), recorded, recorded != 0), s.next, reported, proposal.value)
            else s' == Without(WithStop(s), s.next, undone)
  {
    Reachable(actions);
    TrailPassFrom(Exec(actions), proposal, placed, reported, cancelled, undone);
  }

  lemma TrailPassFrom(s: State, proposal: Option<real>, placed: bool, reported: bool, cancelled: bool, undone: bool)
    requires Bookkeeping(s) && s.trailing.TIdle? && s.entry.Open? && (cancelled ==> RecordedStop(s.entry.pos) in s.live)
    ensures var s' := TrailPass(s, proposal, placed, reported, cancelled, undone);
            var recorded := RecordedStop(s.entry.pos);
            if proposal.None? || !Advances(s.entry.pos, proposal.value) || !placed then s' == s
            else if recorded == 0 || cancelled then s' == OnRecord(Without(WithStop(s), recorded, recorded != 0), s.next, reported, proposal.value)
            else s' == Without(WithStop(s), s.next, undone)
  {
    var p := s.entry.pos;
    var s1 := Step(Step(s, TrailStart), TrailCheck(proposal));
    if proposal.None? || !Advances(p, proposal.value) {
      assert s1 == s;
    } else {
      assert s1 == s.(trailing := TPlacing(p, proposal.value));
      if placed {
        TrailPlacedEnds(s, p, proposal.value, reported, cancelled, undone);
      }
    }
  }

  lemma TrailPlacedEnds(s: State, p: Pos, level: real, reported: bool, cancelled: bool, undone: bool)
    requires Numbered(s) && s.trailing.TIdle? && s.entry == Open(p) && (cancelled ==> RecordedStop(p) in s.live)
    ensures var s2 := Step(s.(trailing := TPlacing(p, level)), TrailPlaced(true, reported));
            var recorded, t := RecordedStop(p), Ticket(s.next, reported, level);
            && s2 == WithStop(s).(trailing := if recorded == 0 then TRecording(p, t) else TCancelling(p, t))
            && (recorded == 0 ==> Step(s2, TrailRecord) == OnRecord(WithStop(s), s.next, reported, level))
            && (recorded != 0 ==>
                  var s3 := Step(s2, TrailCancelled(cancelled));
                  && s3 == Without(WithStop(s), recorded, cancelled).(trailing := if cancelled then TRecording(p, t) else TRollingBack(p, t))
                  && (cancelled ==> Step(s3, TrailRecord) == OnRecord(Without(WithStop(s), recorded, true), s.next, reported, level))
                  && (!cancelled ==> Step(s3, TrailRolledBack(undone)) == Without(WithStop(s), s.next, undone)))
  {}

  // ----- Refresh -----

  function RefreshPass(s: State, level: real, placed: bool, reported: bool, cancelled: bool): State {
    var s1 := Step(s, RefreshStart(level));
    if s1.monitor.MIdle? then s1
    else
      var s2 := Step(s1, RefreshPlaced(placed, reported));
      if s2.monitor.MIdle? then s2 else Step(Step(s2, RefreshCancelled(cancelled)), RefreshRecord)
  }

  /** Undisturbed, a refresh of a position with a known stop and a level places and records a new stop, and leaves the old one beside
      it exactly when that cannot be cancelled. */
  lemma RefreshPassEnds(actions: seq<Action>, level: real, placed: bool, reported: bool, cancelled: bool)
    requires var s := Exec(actions); s.monitor.MIdle? && s.entry.Open? && (cancelled ==> RecordedStop(s.entry.pos) in s.live)
    ensures var s, s' := Exec(actions), RefreshPass(Exec(actions), level, placed, reported, cancelled);
            var recorded := RecordedStop(s.entry.pos);
            s' == if recorded == 0 || s.entry.pos.level <= 0.0 || !placed then s
                  else OnRecord(Without(WithStop(s), recorded, cancelled), s.next, reported, level)
  {
    Reachable(actions);
    var s := Exec(actions);
    var p := s.entry.pos;
    if RecordedStop(p) != 0 && p.level > 0.0 {
      assert Step(s, RefreshStart(level)) == s.(monitor := RPlacing(p, level));
      RefreshPlacedEnds(s, p, level, reported, cancelled);
    }
  }

  lemma RefreshPlacedEnds(s: State, p: Pos, level: real, reported: bool, cancelled: bool)
    requires Numbered(s) && s.monitor.MIdle? && s.entry == Open(p) && (cancelled ==> RecordedStop(p) in s.live)
    ensures var s1, t := s.(monitor := RPlacing(p, level)), Ticket(s.next, reported, level);
            var s2 := Step(s1, RefreshPlaced(true, reported));
            var s3 := Step(s2, RefreshCancelled(cancelled));
            && Step(s1, RefreshPlaced(false, reported)) == s
            && s2 == WithStop(s).(monitor := RCancelling(p, t))
            && s3 == Without(WithStop(s), RecordedStop(p), cancelled).(monitor := RRecording(p, t))
            && Step(s3, RefreshRecord) == OnRecord(Without(WithStop(s), RecordedStop(p), cancelled), s.next, reported, level)
  {
    var t := Ticket(s.next, reported, level);
    assert Step(s.(monitor := RPlacing(p, level)), RefreshPlaced(true, reported)) == WithStop(s).(monitor := RCancelling(p, t));
    RefreshCancelledEnds(WithStop(s), p, t, cancelled);
  }

  lemma RefreshCancelledEnds(s: State, p: Pos, t: Ticket, cancelled: bool)
    requires s.monitor.MIdle? && s.entry == Open(p) && (cancelled ==> RecordedStop(p) in s.live)
    ensures var s3 := Step(s.(monitor := RCancelling(p, t)), RefreshCancelled(cancelled));
            && s3 == Without(s, RecordedStop(p), cancelled).(monitor := RRecording(p, t))
            && Step(s3, RefreshRecord) == OnRecord(Without(s, RecordedStop(p), cancelled), t.stop, t.reported, t.level)
  {}

  // ----- Expiry -----

  // From the look at the expired positions to the removal.
  function ExpiryRun(s: State, answered: bool, reply: CloseReply, cancelled: bool): State {
    var s1 := Step(Step(Step(s, ExpireStart), ExpireCheck), ExpireQueried(answered));
    var s2 := if s1.monitor.XClosing? then Step(s1, ExpireClosed(reply)) else s1;
    var s3 := if s2.monitor.XCancelling? then Step(s2, ExpireCancelled(cancelled)) else s2;
    if s3.monitor.MIdle? then s3 else Step(s3, ExpireRemove)
  }

  /** Undisturbed, an expiry drops the entry unless its close goes unanswered; a position seen flat is dropped as it is; otherwise its
      stop is cancelled, and only an accepted close ends the position. */
  lemma ExpiryRunEnds(actions: seq<Action>, answered: bool, reply: CloseReply, cancelled: bool)
    requires var s := Exec(actions); s.monitor.MIdle? && s.entry.Open? && (cancelled ==> RecordedStop(s.entry.pos) in s.live)
    ensures var s, s' := Exec(actions), ExpiryRun(Exec(actions), answered, reply, cancelled);
            var recorded, dropped := RecordedStop(s.entry.pos), s.(entry := NoEntry, guarded := false);
            s' == if answered && !s.held then dropped
                  else if reply == Unanswered then s
                  else Without(dropped, recorded, recorded != 0 && cancelled).(held := s.held && reply == Rejected)
  {
    var s := Exec(actions);
    var p := s.entry.pos;
    QueriedEnds(s, p, answered);
    if !(answered && !s.held) && reply != Unanswered {
      ClosedEnds(s, p, reply, cancelled);
    }
  }

  lemma QueriedEnds(s: State, p: Pos, answered: bool)
    requires s.monitor.MIdle? && s.entry == Open(p)
    ensures var s1 := Step(Step(Step(s, ExpireStart), ExpireCheck), ExpireQueried(answered));
            if answered && !s.held then
              s1.monitor.XRemoving? && Step(s1, ExpireRemove) == s.(entry := NoEntry, guarded := false)
            else s1 == s.(monitor := XClosing(p)) && Step(s1, ExpireClosed(Unanswered)) == s
  {
    Checked(s, p);
    Queried(s, p, answered);
  }

  lemma Checked(s: State, p: Pos)
    requires s.monitor.MIdle? && s.entry == Open(p)
    ensures Step(Step(s, ExpireStart), ExpireCheck) == s.(monitor := XQuerying(p))
  {
    assert Step(s, ExpireStart) == s.(monitor := XChosen(p));
  }

  lemma Queried(s: State, p: Pos, answered: bool)
    requires s.monitor.MIdle? && s.entry == Open(p)
    ensures var s1 := Step(s.(monitor := XQuerying(p)), ExpireQueried(answered));
            if answered && !s.held then
              s1.monitor.XRemoving? && Step(s1, ExpireRemove) == s.(entry := NoEntry, guarded := false)
            else s1 == s.(monitor := XClosing(p)) && Step(s1, ExpireClosed(Unanswered)) == s
  {}

  lemma ClosedEnds(s: State, p: Pos, reply: CloseReply, cancelled: bool)
    requires s.monitor.MIdle? && s.entry == Open(p) && reply != Unanswered && (cancelled ==> RecordedStop(p) in s.live)
    ensures var s1, held, recorded := s.(monitor := XClosing(p)), s.held && reply == Rejected, RecordedStop(p);
            var s2 := Step(s1, ExpireClosed(reply));
            var s3 := Step(s2, ExpireCancelled(cancelled));
            var dropped := s.(entry := NoEntry, guarded := false, held := held);
            && s2.held == held
            && (recorded == 0 ==> s2.monitor.XRemoving? && Step(s2, ExpireRemove) == dropped)
            && (recorded != 0 ==> s2.monitor.XCancelling? && s3.monitor.XRemoving?
                                  && Step(s3, ExpireRemove) == Without(dropped, recorded, cancelled))
  {}

  // ----- Overtaken -----

  /** An actor whose position is no longer the tracked one gives up at its next look, without a trace; only the refresh records what
      it placed all the same, on whatever position there is. */
  lemma Overtaken(s: State, proposal: Option<real>)
    requires !s.trailing.TIdle? ==> !Same(s.entry, s.trailing.pos)
    requires !s.monitor.MIdle? ==> !Same(s.entry, s.monitor.pos)
    ensures s.trailing.TChosen? ==> Step(s, TrailCheck(proposal)) == s.(trailing := TIdle)
    ensures s.trailing.TRecording? ==> Step(s, TrailRecord) == s.(trailing := TIdle)
    ensures s.monitor.XChosen? ==> Step(s, ExpireCheck) == s.(monitor := MIdle)
    ensures s.monitor.XRemoving? ==> Step(s, ExpireRemove) == s.(monitor := MIdle)
    ensures s.monitor.RRecording? ==>
              var t := s.monitor.ticket;
              Step(s, RefreshRecord) ==
                if s.entry.Open? then OnRecord(s, t.stop, t.reported, t.level).(monitor := MIdle, guarded := s.guarded) else s.(monitor := MIdle)
  {}

  // ----- Opening, and what happens to a position by itself -----

  /** An opening that ends with its stop accepted leaves a held position with that stop, and no other, on record and live; one that
      ends without leaves no live stop for it. */
  lemma OpeningEnds(s: State, long: bool, trails: bool, level: real, reported: bool, recordsFailedId: bool)
    requires s.entry.NoEntry?
    ensures var stop, reserved := s.next + 1, Step(s, Reserve);
            && Step(reserved, Release) == s
            && Step(reserved, Commit(long, trails, level, reported)) ==
                 s.(entry := Open(Pos(s.next, long, trails, level, if reported then stop else 0, stop)), held := true, guarded := true,
                    live := s.live + {stop}, placedFor := s.placedFor[stop := s.next], next := s.next + 2)
            && Step(reserved, CommitUnprotected(long, trails, level, recordsFailedId)) ==
                 s.(entry := Open(Pos(s.next, long, trails, level, 0, if recordsFailedId then stop else 0)), held := true,
                    guarded := false, next := s.next + 2)
  {}

  /** A recovered position has neither stop nor level and is not trailed; a position ends by itself without its entry noticing; a stop
      goes by itself exactly if it is not one of the held position's own. */
  lemma ByItself(s: State, long: bool, stop: nat)
    ensures s.entry.NoEntry? && s.monitor.MIdle? ==>
              Step(s, Recover(long)) == s.(entry := Open(Pos(s.next, long, false, 0.0, 0, 0)), next := s.next + 1, guarded := false)
    ensures Step(s, Close) == s.(held := false)
    ensures s.entry.Open? ==> Step(s, Remove) == s.(entry := NoEntry, guarded := false)
    ensures var own := s.entry.Open? && stop in s.placedFor && s.placedFor[stop] == s.entry.pos.openedAt;
            Step(s, Lapse(stop)) == Without(s, stop, !(own && s.held))
  {}
}
