/** The beta-weighted exposure gate (src/engine/exposure_controller.cpp). */
module Exposure {
  import opened Common
  import opened SizingPolicy
  import opened TrackerSpec
  import opened OrderCap

  datatype Limits = Limits(enabled: bool, target: real, soft: real, hard: real, maxGross: real, minNotionalAfterScale: real)

  datatype Metrics = Metrics(long: real, short: real, net: real, gross: real, positionCount: nat)

  datatype Decision = Admit(scaleFactor: real) | ScaleDown(scaleFactor: real) | Refuse

  // The notional the account's position list gives a symbol, else the tracker's own.
  function PositionNotional(reports: seq<Report>, t: TrackedPosition): (n: real)
    ensures n >= 0.0
  {
    if reports == [] then TrackedNotional(t)
    else if reports[0].symbol == t.symbol && ReportNotional(reports[0]) > 0.0 then ReportNotional(reports[0])
    else PositionNotional(reports[1..], t)
  }

  function Listed(a: Account): seq<Report> { if a.reports.Some? then a.reports.value else [] }

  // No live report of the symbol.
  predicate Unreported(a: Account, symbol: string) {
    forall p | p in Listed(a) :: p.symbol == symbol ==> ReportNotional(p) <= 0.0
  }

  // Signed beta-weighted exposure of one position.
  function Signed(a: Account, beta: string -> real, t: TrackedPosition): real {
    if t.direction == NoDirection then 0.0
    else
      var weighted := Times(PositionNotional(Listed(a), t), beta(t.symbol));
      if t.direction == Long then weighted else -weighted
  }

  function Net(a: Account, beta: string -> real, open: seq<TrackedPosition>): real {
    if open == [] then 0.0 else Net(a, beta, open[..|open| - 1]) + Signed(a, beta, open[|open| - 1])
  }

  function Gross(a: Account, beta: string -> real, open: seq<TrackedPosition>): real {
    if open == [] then 0.0 else Gross(a, beta, open[..|open| - 1]) + Abs(Signed(a, beta, open[|open| - 1]))
  }

  method NotionalOf(a: Account, t: TrackedPosition) returns (n: real)
    ensures n == PositionNotional(Listed(a), t)
  {
    if a.reports.Some? {
      var reports := a.reports.value;
      for k := 0 to |reports|
        invariant PositionNotional(reports, t) == PositionNotional(reports[k..], t)
      {
        assert reports[k..][1..] == reports[k + 1..];
        if reports[k].symbol != t.symbol {
          continue;
        }
        var notional := NotionalReported(reports[k]);
        if notional > 0.0 {
          return notional;
        }
      }
    }
    return Abs(Times(t.quantity, t.entryPrice));
  }

  /** The gate's one pass over the tracker yields the signed sum and the absolute sum of every position's exposure. */
  method ComputeMetrics(a: Account, beta: string -> real, open: seq<TrackedPosition>) returns (m: Metrics)
    ensures m.net == Net(a, beta, open) && m.gross == Gross(a, beta, open)
    ensures m.net == m.long - m.short && m.positionCount == |open|
  {
    var long, short, gross := 0.0, 0.0, 0.0;
    for k := 0 to |open|
      invariant long - short == Net(a, beta, open[..k]) && gross == Gross(a, beta, open[..k])
    {
      assert open[..k + 1][..k] == open[..k];
      var t := open[k];
      if t.direction == NoDirection {
        continue;
      }
      var notional := NotionalOf(a, t);
      if notional <= 0.0 {
        assert Times(notional, beta(t.symbol)) == 0.0;
        continue;
      }
      var weighted := Times(notional, beta(t.symbol));
      if t.direction == Long {
        long := long + weighted;
      } else {
        short := short + weighted;
      }
      gross := gross + Abs(weighted);
    }
    assert open[..|open|] == open;
    m := Metrics(long, short, long - short, gross, |open|);
  }

  function Clamp(x: real): real { if x < 0.0 then 0.0 else if x > 1.0 then 1.0 else x }

  // added: the signed exposure of the proposed trade.
  function Decide(net: real, added: real, l: Limits, gross: real): Decision {
    var deviation := Abs(net + added - l.target);
    if gross + Abs(added) > l.maxGross then Refuse
    else if deviation >= l.hard then Refuse
    else if deviation <= Abs(net - l.target) then Admit(1.0)
    else if l.hard > l.soft && deviation >= l.soft then ScaleDown(Clamp((l.hard - deviation) / (l.hard - l.soft)))
    else Admit(1.0)
  }

  function Added(beta: real, direction: Direction, notional: real): real {
    if direction == Long then Times(notional, beta) else -Times(notional, beta)
  }

  // The configured limits are multiples of the balance.
  function ScaledLimits(l: Limits, balance: real): Limits {
    var b := Abs(balance);
    l.(target := Times(l.target, b), soft := Times(l.soft, b), hard := Times(l.hard, b), maxGross := Times(l.maxGross, b))
  }

  function CheckExposure(l: Limits, a: Account, beta: string -> real, open: seq<TrackedPosition>,
                         symbol: string, direction: Direction, proposed: real): Decision {
    if !l.enabled || direction == NoDirection || a.availableBalance <= 0.0 || proposed <= 0.0 then Admit(1.0)
    else Decide(Net(a, beta, open), Added(beta(symbol), direction, proposed), ScaledLimits(l, a.availableBalance), Gross(a, beta, open))
  }

  method Check(l: Limits, a: Account, beta: string -> real, open: seq<TrackedPosition>,
               symbol: string, direction: Direction, proposed: real) returns (d: Decision)
    ensures d == CheckExposure(l, a, beta, open, symbol, direction, proposed)
  {
    if !l.enabled || direction == NoDirection || a.availableBalance <= 0.0 || proposed <= 0.0 {
      return Admit(1.0);
    }
    var balance := Abs(a.availableBalance);
    var soft, hard := Times(l.soft, balance), Times(l.hard, balance);
    var maxGross, target := Times(l.maxGross, balance), Times(l.target, balance);
    var m := ComputeMetrics(a, beta, open);
    var weighted := Times(proposed, beta(symbol));
    var newNet := m.net + if direction == Long then weighted else -weighted;
    var newDeviation := Abs(newNet - target);
    if m.gross + Abs(weighted) > maxGross || newDeviation >= hard {
      return Refuse;
    }
    if newDeviation <= Abs(m.net - target) {
      return Admit(1.0);
    }
    if hard > soft && newDeviation >= soft {
      var factor := (hard - newDeviation) / (hard - soft);
      return ScaleDown(if factor < 0.0 then 0.0 else if factor > 1.0 then 1.0 else factor);
    }
    return Admit(1.0);
  }

  // ----- Properties -----

  lemma {:induction false} UnreportedNotional(reports: seq<Report>, t: TrackedPosition)
    requires forall p | p in reports :: p.symbol == t.symbol ==> ReportNotional(p) <= 0.0
    ensures PositionNotional(reports, t) == TrackedNotional(t)
  {
    if reports != [] {
      UnreportedNotional(reports[1..], t);
    }
  }

  /** Any share of an admitted trade keeps the gross limit and stays strictly inside the hard limit. */
  lemma ShareStaysInside(net: real, added: real, share: real, l: Limits, gross: real)
    requires !Decide(net, added, l, gross).Refuse?
    requires 0.0 <= share <= added || added <= share <= 0.0
    requires Decide(net, added, l, gross).Admit? ==> share == added
    ensures gross + Abs(share) <= l.maxGross
    ensures Abs(net + share - l.target) < l.hard
  {}

  /** A trade is refused exactly when it would take gross above its maximum or the deviation to the hard limit; it is scaled down
      exactly when it takes the deviation further out, to the soft limit or beyond; the factor falls evenly from 1 there to 0 at the
      hard limit. */
  lemma DecidedBy(net: real, added: real, l: Limits, gross: real)
    ensures var d, deviation := Decide(net, added, l, gross), Abs(net + added - l.target);
            && (d.Refuse? <==> gross + Abs(added) > l.maxGross || deviation >= l.hard)
            && (d.ScaleDown? <==> !d.Refuse? && deviation > Abs(net - l.target) && l.soft < l.hard && deviation >= l.soft)
            && (d.ScaleDown? ==> Times(d.scaleFactor, l.hard - l.soft) == l.hard - deviation)
  {
    var d, deviation := Decide(net, added, l, gross), Abs(net + added - l.target);
    if d.ScaleDown? {
      QuotientIsFraction(l.hard - deviation, l.hard - l.soft);
      assert Times((l.hard - deviation) / (l.hard - l.soft), l.hard - l.soft) == l.hard - deviation;
    }
  }

  /** A trade goes through in full only if it brings the deviation no further out, or leaves it below the soft limit (where
      there is one below the hard limit). */
  lemma FullSizeOnlyInside(net: real, added: real, l: Limits, gross: real)
    requires Decide(net, added, l, gross).Admit?
    ensures Abs(net + added - l.target) <= Abs(net - l.target) || Abs(net + added - l.target) < l.soft || l.hard <= l.soft
    ensures Decide(net, added, l, gross).scaleFactor == 1.0
  {}

  /** The scale factor is a fraction: positive, and 1 only at the soft limit. */
  lemma ScaleIsFraction(net: real, added: real, l: Limits, gross: real)
    requires Decide(net, added, l, gross).ScaleDown?
    ensures 0.0 < Decide(net, added, l, gross).scaleFactor <= 1.0
    ensures Decide(net, added, l, gross).scaleFactor == 1.0 <==> Abs(net + added - l.target) == l.soft
  {
    var deviation := Abs(net + added - l.target);
    QuotientIsFraction(l.hard - deviation, l.hard - l.soft);
  }

  lemma QuotientIsFraction(part: real, whole: real)
    requires 0.0 < part <= whole
    ensures 0.0 < part / whole <= 1.0
    ensures part / whole == 1.0 <==> part == whole
  {
    var x := part / whole;
    assert Times(x, whole) == part;
    assert Times(0.0, whole) == 0.0 && Times(1.0, whole) == whole;
    TimesMonotone(x, 0.0, whole);
    TimesMonotone(1.0, x, whole);
    TimesMonotone(x, 1.0, whole);
  }

  /** Closing a position never raises the gross exposure. */
  lemma {:induction false} ClosingLowersGross(a: Account, beta: string -> real, open: seq<TrackedPosition>, k: nat)
    requires k < |open|
    ensures Gross(a, beta, open[..k] + open[k + 1..]) <= Gross(a, beta, open)
  {
    var front, last := open[..|open| - 1], open[|open| - 1];
    var rest := open[..k] + open[k + 1..];
    if k == |front| {
      assert rest == front;
    } else {
      ClosingLowersGross(a, beta, front, k);
      assert rest[..|rest| - 1] == front[..k] + front[k + 1..] && rest[|rest| - 1] == last;
    }
  }
}
