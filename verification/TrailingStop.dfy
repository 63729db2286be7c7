/** Where the trailing stop may go next, and where it ends up over a run (src/engine/trailing_stop_controller.cpp). */
module TrailingStop {
  import opened Common
  import opened TrackerSpec

  datatype Policy = LastCandles | Swing

  datatype Settings = Settings(enabled: bool, interval: string, policy: Policy, candles: int, lookback: int, direction: Direction)

  // Prices seen so that lower is always further from the market: a short position's highs count downwards.
  function Height(d: Direction, k: Kline): real { if d == Long then k.low else -k.high }

  function Price(d: Direction, height: real): real { if d == Long then height else -height }

  function ClosedOnly(klines: seq<Kline>): seq<Kline> {
    if klines == [] then []
    else
      var rest, k := ClosedOnly(klines[..|klines| - 1]), klines[|klines| - 1];
      if k.isClosed then rest + [k] else rest
  }

  // ----- Swing points -----

  // A strict low among the `lookback` bars on either side (for a short position: a strict high).
  ghost predicate IsSwing(d: Direction, bars: seq<Kline>, lookback: nat, i: int) {
    && lookback <= i < |bars| - lookback
    && forall j | i - lookback <= j <= i + lookback && j != i :: Height(d, bars[i]) < Height(d, bars[j])
  }

  ghost predicate IsLatestSwing(d: Direction, bars: seq<Kline>, lookback: nat, level: real) {
    exists i :: IsSwing(d, bars, lookback, i) && level == Price(d, Height(d, bars[i]))
                && forall j | i < j < |bars| :: !IsSwing(d, bars, lookback, j)
  }

  method LatestConfirmedSwing(d: Direction, bars: seq<Kline>, lookback: int) returns (r: Option<real>)
    requires lookback > 0
    ensures r.Some? ==> IsLatestSwing(d, bars, lookback, r.value)
    ensures r.None? ==> forall i :: !IsSwing(d, bars, lookback, i)
  {
    if |bars| < lookback * 2 + 1 {
      return None;
    }
    var i := |bars| - 1 - lookback;
    while i >= lookback
      invariant lookback - 1 <= i <= |bars| - 1 - lookback
      invariant forall j | i < j < |bars| :: !IsSwing(d, bars, lookback, j)
    {
      var isSwing := true;
      var j := i - lookback;
      while j <= i + lookback
        invariant i - lookback <= j <= i + lookback + 1 && isSwing
        invariant forall q | i - lookback <= q < j && q != i :: Height(d, bars[i]) < Height(d, bars[q])
      {
        if j != i && Height(d, bars[j]) <= Height(d, bars[i]) {
          isSwing := false;
          break;
        }
        j := j + 1;
      }
      if isSwing {
        assert IsSwing(d, bars, lookback, i);
        return Some(Price(d, Height(d, bars[i])));
      }
      i := i - 1;
    }
    return None;
  }

  // ----- The last candles -----

  // The lowest low (for a short position: the highest high) of the last n bars.
  ghost predicate IsExtreme(d: Direction, bars: seq<Kline>, n: nat, level: real) {
    && n <= |bars|
    && (forall k | |bars| - n <= k < |bars| :: Price(d, level) <= Height(d, bars[k]))
    && (exists k :: |bars| - n <= k < |bars| && Price(d, level) == Height(d, bars[k]))
  }

  method LastCandlesExtreme(d: Direction, bars: seq<Kline>, candles: int) returns (level: real)
    requires bars != [] && candles > 0
    ensures IsExtreme(d, bars, Min(candles, |bars|), level)
  {
    var height := Height(d, bars[|bars| - 1]);
    var n := 1;
    while n < candles && n < |bars|
      invariant 1 <= n <= Min(candles, |bars|)
      invariant forall k | |bars| - n <= k < |bars| :: height <= Height(d, bars[k])
      invariant exists k :: |bars| - n <= k < |bars| && height == Height(d, bars[k])
    {
      n := n + 1;
      var next := Height(d, bars[|bars| - n]);
      if next < height {
        height := next;
      }
    }
    level := Price(d, height);
  }

  // ----- The decision -----

  predicate Active(s: Settings) {
    && s.enabled && s.interval != "" && s.direction != NoDirection
    && if s.policy == Swing then s.lookback > 0 else s.candles > 0
  }

  // The level the closed candles propose.
  ghost predicate Proposes(s: Settings, bars: seq<Kline>, level: real) {
    && Active(s) && bars != []
    && if s.policy == Swing then IsLatestSwing(s.direction, bars, s.lookback, level)
       else IsExtreme(s.direction, bars, Min(s.candles, |bars|), level)
  }

  // The stop of a long position trails lows, that of a short one highs.
  ghost predicate LowSwing(bars: seq<Kline>, lookback: nat, i: int) {
    && lookback <= i < |bars| - lookback
    && forall j | i - lookback <= j <= i + lookback && j != i :: bars[i].low < bars[j].low
  }

  ghost predicate HighSwing(bars: seq<Kline>, lookback: nat, i: int) {
    && lookback <= i < |bars| - lookback
    && forall j | i - lookback <= j <= i + lookback && j != i :: bars[i].high > bars[j].high
  }

  // The low of the last swing low, or the high of the last swing high.
  ghost predicate SwingLevel(long: bool, bars: seq<Kline>, lookback: nat, level: real) {
    if long then
      exists i :: LowSwing(bars, lookback, i) && level == bars[i].low && forall j | i < j < |bars| :: !LowSwing(bars, lookback, j)
    else
      exists i :: HighSwing(bars, lookback, i) && level == bars[i].high && forall j | i < j < |bars| :: !HighSwing(bars, lookback, j)
  }

  // The lowest low, or the highest high, of the last n bars.
  ghost predicate ExtremeLevel(long: bool, bars: seq<Kline>, n: nat, level: real) {
    && n <= |bars|
    && (forall k | |bars| - n <= k < |bars| :: if long then level <= bars[k].low else bars[k].high <= level)
    && (exists k :: |bars| - n <= k < |bars| && level == if long then bars[k].low else bars[k].high)
  }

  /** What the candles propose, in prices: with trailing enabled on an interval, the low of the last swing low or the lowest of the
      last lows for a long position, the high of the last swing high or the highest of the last highs for a short one. */
  lemma ProposedPrice(s: Settings, bars: seq<Kline>, level: real)
    ensures Proposes(s, bars, level) <==>
              && bars != [] && s.enabled && s.interval != "" && (s.direction == Long || s.direction == Short)
              && match s.policy
                 case Swing => s.lookback > 0 && SwingLevel(s.direction == Long, bars, s.lookback, level)
                 case LastCandles => s.candles > 0 && ExtremeLevel(s.direction == Long, bars, Min(s.candles, |bars|), level)
  {
    if Active(s) && bars != [] {
      var long := s.direction == Long;
      if s.policy == Swing {
        forall i
          ensures IsSwing(s.direction, bars, s.lookback, i) <==>
                  if long then LowSwing(bars, s.lookback, i) else HighSwing(bars, s.lookback, i)
        {}
      } else {
        ExtremePrice(s.direction, bars, Min(s.candles, |bars|), level);
      }
    }
  }

  lemma ExtremePrice(d: Direction, bars: seq<Kline>, n: nat, level: real)
    requires d != NoDirection
    ensures IsExtreme(d, bars, n, level) <==> ExtremeLevel(d == Long, bars, n, level)
  {}

  predicate Favorable(d: Direction, current: real, level: real) {
    level > 0.0 && (current <= 0.0 || (d == Long && level > current) || (d == Short && level < current))
  }

  /** A new level comes out exactly when the closed candles propose one in the position's favour. */
  method Evaluate(s: Settings, current: real, klines: seq<Kline>) returns (r: Option<real>)
    ensures r.Some? ==> Proposes(s, ClosedOnly(klines), r.value) && Favorable(s.direction, current, r.value)
    ensures r.None? ==> forall level | Proposes(s, ClosedOnly(klines), level) :: !Favorable(s.direction, current, level)
  {
    if !s.enabled || s.interval == "" || s.direction == NoDirection {
      return None;
    }
    if (s.policy == LastCandles && s.candles <= 0) || (s.policy == Swing && s.lookback <= 0) {
      return None;
    }
    var bars: seq<Kline> := [];
    for k := 0 to |klines|
      invariant bars == ClosedOnly(klines[..k])
    {
      assert klines[..k + 1][..k] == klines[..k];
      if klines[k].isClosed {
        bars := bars + [klines[k]];
      }
    }
    assert klines[..|klines|] == klines;
    if bars == [] {
      return None;
    }
    var level;
    if s.policy == Swing {
      var swing := LatestConfirmedSwing(s.direction, bars, s.lookback);
      if swing.None? {
        return None;
      }
      level := swing.value;
    } else {
      level := LastCandlesExtreme(s.direction, bars, s.candles);
    }
    ProposalUnique(s, bars, level);
    if level <= 0.0 {
      return None;
    }
    if current > 0.0 && (if s.direction == Long then level <= current else level >= current) {
      return None;
    }
    return Some(level);
  }

  /** The candles propose at most one level. */
  lemma ProposalUnique(s: Settings, bars: seq<Kline>, level: real)
    requires Proposes(s, bars, level)
    ensures forall other | Proposes(s, bars, other) :: other == level
  {
    forall other | Proposes(s, bars, other)
      ensures other == level
    {
      if s.policy == Swing {
        SwingUnique(s.direction, bars, s.lookback, level, other);
      }
    }
  }

  lemma SwingUnique(d: Direction, bars: seq<Kline>, lookback: nat, a: real, b: real)
    requires IsLatestSwing(d, bars, lookback, a) && IsLatestSwing(d, bars, lookback, b)
    ensures a == b
  {
    var i :| IsSwing(d, bars, lookback, i) && a == Price(d, Height(d, bars[i])) && forall j | i < j < |bars| :: !IsSwing(d, bars, lookback, j);
    var k :| IsSwing(d, bars, lookback, k) && b == Price(d, Height(d, bars[k])) && forall j | k < j < |bars| :: !IsSwing(d, bars, lookback, j);
    assert i == k;
  }

  // ----- The level over a run -----

  // The recorded level after a proposal has been evaluated.
  function Moved(d: Direction, current: real, proposal: Option<real>): real {
    if proposal.Some? && Favorable(d, current, proposal.value) then proposal.value else current
  }

  // One change of the recorded level: a proposal evaluated, or a level another writer puts in place of it, as the stop refresh
  // after averaging down does.
  datatype Event = Proposed(proposal: Option<real>) | Rewritten(level: real)

  function LevelAfter(d: Direction, start: real, events: seq<Event>): real {
    if events == [] then start
    else
      match events[|events| - 1]
      case Proposed(proposal) => Moved(d, LevelAfter(d, start, events[..|events| - 1]), proposal)
      case Rewritten(level) => level
  }

  // The level last put in place, and the proposals evaluated since.
  function Base(start: real, events: seq<Event>): real {
    if events == [] then start
    else if events[|events| - 1].Rewritten? then events[|events| - 1].level
    else Base(start, events[..|events| - 1])
  }

  function Since(events: seq<Event>): seq<Option<real>> {
    if events == [] || events[|events| - 1].Rewritten? then []
    else Since(events[..|events| - 1]) + [events[|events| - 1].proposal]
  }

  // x is a level met since: the one put in place, or a proposal.
  ghost predicate Met(base: real, proposals: seq<Option<real>>, x: real) {
    x > 0.0 && (x == base || Some(x) in proposals)
  }

  predicate AtLeastAsGood(d: Direction, a: real, b: real) { if d == Long then a >= b else a <= b }

  // The best of the levels met for a position; where none was met, the one put in place.
  ghost predicate BestMet(d: Direction, level: real, base: real, proposals: seq<Option<real>>) {
    && (forall x | Met(base, proposals, x) :: AtLeastAsGood(d, level, x))
    && (level > 0.0 ==> Met(base, proposals, level))
    && (level <= 0.0 ==> level == base && forall x :: !Met(base, proposals, x))
  }

  /** The trailed level is the best one met since it was last put in place, by the opening or by a stop refresh: for a long position
      the highest, for a short one the lowest; it stays as it was put exactly while none has been met. */
  lemma {:induction false} LevelIsBestMet(d: Direction, start: real, events: seq<Event>)
    requires d != NoDirection
    ensures BestMet(d, LevelAfter(d, start, events), Base(start, events), Since(events))
  {
    if events != [] && events[|events| - 1].Proposed? {
      var front, last := events[..|events| - 1], events[|events| - 1].proposal;
      LevelIsBestMet(d, start, front);
      OneMoreMet(d, LevelAfter(d, start, front), Base(start, front), Since(front), last);
    } else {
      assert Since(events) == [];
    }
  }

  lemma OneMoreMet(d: Direction, level: real, base: real, proposals: seq<Option<real>>, last: Option<real>)
    requires d != NoDirection && BestMet(d, level, base, proposals)
    ensures BestMet(d, Moved(d, level, last), base, proposals + [last])
  {
    forall x
      ensures Met(base, proposals + [last], x) <==> Met(base, proposals, x) || (x > 0.0 && last == Some(x))
    {}
  }

  /** Proposals alone never move a set level against the position: only putting another level in place can. */
  lemma {:induction false} LevelNeverRetreats(d: Direction, start: real, events: seq<Event>, more: seq<Event>)
    requires d != NoDirection && LevelAfter(d, start, events) > 0.0 && forall e | e in more :: e.Proposed?
    ensures LevelAfter(d, start, events + more) > 0.0
    ensures AtLeastAsGood(d, LevelAfter(d, start, events + more), LevelAfter(d, start, events))
  {
    if more == [] {
      assert events + more == events;
    } else {
      var last := more[|more| - 1];
      assert last in more;
      LevelNeverRetreats(d, start, events, more[..|more| - 1]);
      assert (events + more)[..|events + more| - 1] == events + more[..|more| - 1];
      assert (events + more)[|events + more| - 1] == last;
    }
  }
}
