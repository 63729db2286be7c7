/** One backtest fold: next-bar entries, bar-by-bar exits, streaming statistics (src/backtest/backtest_engine.cpp:66-266). */
module BacktestEngine {
  import opened Common
  import SizingPolicy

  datatype Signal = Signal(direction: Direction, confidence: real, atr: real)

  datatype OpenPosition = OpenPosition(direction: Direction, entryPrice: real, sl: real, tp: real, openTimeMs: int)

  // A leverage that is not positive counts as 1.
  type Leverage = l: int | l >= 1 witness 1

  // The fold's settings.
  datatype Setup = Setup(slMult: real, tpMult: real, leverage: Leverage, takeProfitPct: real, tickSize: real, maxHoldMs: int,
                         slippage: real, takerFee: real, minConfidence: real, accepted: Direction)

  type Strategy = seq<Kline> -> Signal

  // ----- Prices -----

  function RoundToTick(value: real, tick: real, up: bool): (r: real)
    ensures tick <= 0.0 || value <= 0.0 ==> r == value
    ensures tick > 0.0 && up ==> value <= r < value + tick
    ensures tick > 0.0 && !up ==> value - tick < r <= value
  {
    if tick <= 0.0 || value <= 0.0 then value
    else
      var rounded := if up then SizingPolicy.CeilingTo(value, tick) else SizingPolicy.FloorTo(value, tick);
      if rounded > 0.0 then rounded else value
  }

  // A stop hit wins over a target hit in the same bar.
  function ExitPrice(s: Setup, p: OpenPosition, bar: Kline): Option<real> {
    var slHit := if p.direction == Long then bar.low <= p.sl else bar.high >= p.sl;
    var tpHit := if p.direction == Long then bar.high >= p.tp else bar.low <= p.tp;
    if slHit then Some(p.sl)
    else if tpHit then Some(p.tp)
    else if s.maxHoldMs > 0 && bar.closeTime - p.openTimeMs >= s.maxHoldMs then Some(bar.close)
    else None
  }

  // The leveraged result after slippage and fees; None if a price is not usable.
  function TradeResult(s: Setup, p: OpenPosition, exitPrice: real): Option<real> {
    if p.entryPrice <= 0.0 || exitPrice <= 0.0 then None
    else
      var slipped := if p.direction == Long then exitPrice * (1.0 - s.slippage) else exitPrice * (1.0 + s.slippage);
      if slipped <= 0.0 then None
      else
        var raw := if p.direction == Long then (slipped - p.entryPrice) / p.entryPrice else (p.entryPrice - slipped) / p.entryPrice;
        Some(raw * s.leverage as real - s.takerFee * s.leverage as real * 2.0)
  }

  function EntryPrice(s: Setup, long: bool, open: real): real { if long then open * (1.0 + s.slippage) else open * (1.0 - s.slippage) }

  function StopLevel(s: Setup, long: bool, entry: real, atr: real): real {
    if long then entry - s.slMult * atr else entry + s.slMult * atr
  }

  // A fixed percentage of the margin if one is configured, else a multiple of the range.
  function TargetLevel(s: Setup, long: bool, entry: real, atr: real): real {
    var distance := if s.takeProfitPct > 0.0 then entry * (s.takeProfitPct / 100.0 / s.leverage as real) else s.tpMult * atr;
    if long then entry + distance else entry - distance
  }

  // The position a signal opens at the next bar's open, if it is wanted and its levels are usable.
  function Entry(s: Setup, signal: Signal, next: Kline): Option<OpenPosition> {
    if signal.direction == NoDirection || signal.confidence < s.minConfidence || signal.atr <= 0.0 || signal.direction != s.accepted then None
    else
      var long := signal.direction == Long;
      var entry := EntryPrice(s, long, next.open);
      var sl := RoundToTick(StopLevel(s, long, entry, signal.atr), s.tickSize, long);
      var tp := RoundToTick(TargetLevel(s, long, entry, signal.atr), s.tickSize, !long);
      if sl <= 0.0 || tp <= 0.0 then None else Some(OpenPosition(signal.direction, entry, sl, tp, next.openTime))
  }

  // ----- What the prices mean -----

  // The bar trades through the level.
  predicate Reaches(bar: Kline, level: real) { bar.low <= level <= bar.high }

  // x is no better an exit than y.
  predicate NoBetter(d: Direction, x: real, y: real) { if d == Long then x <= y else x >= y }

  /** Of the levels a bar trades through, the exit is at the one worst for the position; a level exit is one of the two; and
      a bar that reaches neither and has not outlasted the hold leaves the position open. */
  lemma ExitIsConservative(s: Setup, p: OpenPosition, bar: Kline)
    requires bar.low <= bar.high && p.direction != NoDirection && NoBetter(p.direction, p.sl, p.tp)
    ensures Reaches(bar, p.sl) || Reaches(bar, p.tp) ==> ExitPrice(s, p, bar).Some?
    ensures forall level | level in {p.sl, p.tp} && Reaches(bar, level) ::
              ExitPrice(s, p, bar).Some? && NoBetter(p.direction, ExitPrice(s, p, bar).value, level)
    ensures ExitPrice(s, p, bar).Some? && ExitPrice(s, p, bar).value !in {p.sl, p.tp} ==>
              ExitPrice(s, p, bar).value == bar.close && s.maxHoldMs > 0 && bar.closeTime - p.openTimeMs >= s.maxHoldMs
              && !Reaches(bar, p.sl) && !Reaches(bar, p.tp)
  {}

  /** A position is left at its stop exactly when the bar's worst price reaches it, else at its target exactly when the best price
      does, else at the close exactly when a hold is set and over. */
  lemma ExitDecided(s: Setup, p: OpenPosition, bar: Kline)
    requires p.direction != NoDirection
    ensures var (worst, best) := if p.direction == Long then (bar.low, bar.high) else (bar.high, bar.low);
            var over := 0 < s.maxHoldMs <= bar.closeTime - p.openTimeMs;
            ExitPrice(s, p, bar) ==
              if NoBetter(p.direction, worst, p.sl) then Some(p.sl)
              else if NoBetter(p.direction, p.tp, best) then Some(p.tp)
              else if over then Some(bar.close) else None
  {}

  /** A signal opens a position exactly when it is wanted and both levels lie above zero before rounding; the entry is worse than
      the open by the slippage. */
  lemma EntryDecided(s: Setup, signal: Signal, next: Kline)
    ensures var long, e := signal.direction == Long, next.open + (if signal.direction == Long then s.slippage else -s.slippage) * next.open;
            var opens := Entry(s, signal, next);
            && (opens.Some? <==>
                  && (signal.direction == Long || signal.direction == Short) && signal.direction == s.accepted
                  && signal.confidence >= s.minConfidence && signal.atr > 0.0
                  && StopLevel(s, long, e, signal.atr) > 0.0 && TargetLevel(s, long, e, signal.atr) > 0.0)
            && (opens.Some? ==> opens.value.entryPrice == e)
  {
    var e := next.open + (if signal.direction == Long then s.slippage else -s.slippage) * next.open;
    assert e == EntryPrice(s, signal.direction == Long, next.open);
  }

  /** Rounding yields a whole number of ticks unless it would reach zero. */
  lemma RoundedToTick(value: real, tick: real, up: bool)
    requires tick > 0.0 && value > 0.0
    ensures RoundToTick(value, tick, up) > 0.0
    ensures if up || value >= tick then SizingPolicy.OnLattice(RoundToTick(value, tick, up), tick) else RoundToTick(value, tick, up) == value
  {
    SizingPolicy.RoundedOnLattice(value, tick);
    SizingPolicy.RoundsToZero(value, tick);
  }

  /** The stop is a multiple of the range away from the entry on the losing side; a fixed target is where the margin has gained its
      percentage, any other a multiple of the range away on the winning side. */
  lemma LevelsMean(s: Setup, p: OpenPosition, atr: real)
    requires p.entryPrice > 0.0 && p.direction != NoDirection
    ensures var long := p.direction == Long;
            var stop, target := StopLevel(s, long, p.entryPrice, atr), TargetLevel(s, long, p.entryPrice, atr);
            && Won(p, stop) == -(s.slMult * atr)
            && if s.takeProfitPct > 0.0 then Move(s, p, target) * 100.0 == s.takeProfitPct else Won(p, target) == s.tpMult * atr
  {
    if s.takeProfitPct > 0.0 {
      PercentOfMargin(p.entryPrice, s.takeProfitPct, s.leverage as real);
    }
  }

  lemma PercentOfMargin(entry: real, percent: real, leverage: real)
    requires entry > 0.0 && leverage > 0.0
    ensures entry * (percent / 100.0 / leverage) / entry * leverage * 100.0 == percent
  {
    var share := percent / 100.0 / leverage;
    assert entry * share / entry == share;
    assert share * leverage == percent / 100.0;
  }

  /** Tick rounding never loosens a stop nor overstates a target, and moves either by less than a tick. */
  lemma EntryQuantized(s: Setup, signal: Signal, next: Kline)
    requires Entry(s, signal, next).Some? && s.tickSize > 0.0
    ensures var p := Entry(s, signal, next).value;
            var long := p.direction == Long;
            var stop, target := StopLevel(s, long, p.entryPrice, signal.atr), TargetLevel(s, long, p.entryPrice, signal.atr);
            && p.direction == s.accepted == signal.direction && p.openTimeMs == next.openTime && p.sl > 0.0 && p.tp > 0.0
            && (long ==> stop <= p.sl < stop + s.tickSize && target - s.tickSize < p.tp <= target)
            && (!long ==> stop - s.tickSize < p.sl <= stop && target <= p.tp < target + s.tickSize)
  {}

  /** Before rounding, the stop lies on the loss side of the entry and the target on the profit side. */
  lemma LevelsBracketEntry(s: Setup, long: bool, entry: real, atr: real)
    requires entry > 0.0 && atr > 0.0 && s.slMult > 0.0 && (s.takeProfitPct > 0.0 || s.tpMult > 0.0)
    ensures var stop, target := StopLevel(s, long, entry, atr), TargetLevel(s, long, entry, atr);
            if long then stop < entry < target else target < entry < stop
  {
    assert s.slMult * atr > 0.0;
    if s.takeProfitPct > 0.0 {
      assert s.takeProfitPct / 100.0 / s.leverage as real > 0.0;
      assert entry * (s.takeProfitPct / 100.0 / s.leverage as real) > 0.0;
    } else {
      assert s.tpMult * atr > 0.0;
    }
  }

  // How far a price lies from the entry on the winning side.
  function Won(p: OpenPosition, price: real): real { if p.direction == Long then price - p.entryPrice else p.entryPrice - price }

  // The leveraged price move, before slippage and fees.
  function Move(s: Setup, p: OpenPosition, exitPrice: real): real
    requires p.entryPrice > 0.0
  {
    Won(p, exitPrice) / p.entryPrice * s.leverage as real
  }

  /** A result is the leveraged move to a price worse than the exit by the slippage, less the fee on the leveraged stake at either
      end; there is none exactly when a price is not positive. */
  lemma ResultExact(s: Setup, p: OpenPosition, exitPrice: real)
    ensures var slip := if p.direction == Long then -(exitPrice * s.slippage) else exitPrice * s.slippage;
            var result := TradeResult(s, p, exitPrice);
            && (result.Some? <==> p.entryPrice > 0.0 && exitPrice > 0.0 && exitPrice + slip > 0.0)
            && (result.Some? ==> Move(s, p, exitPrice + slip) - result.value == 2.0 * (s.takerFee * s.leverage as real))
  {
    var slip := if p.direction == Long then -(exitPrice * s.slippage) else exitPrice * s.slippage;
    assert exitPrice + slip == if p.direction == Long then exitPrice * (1.0 - s.slippage) else exitPrice * (1.0 + s.slippage);
  }

  /** Slippage and fees only ever lower a result, and without them it is the leveraged price move. */
  lemma CostsOnlyHurt(s: Setup, p: OpenPosition, exitPrice: real)
    requires s.slippage >= 0.0 && s.takerFee >= 0.0 && TradeResult(s, p, exitPrice).Some?
    ensures TradeResult(s, p, exitPrice).value <= Move(s, p, exitPrice)
    ensures s.slippage == 0.0 && s.takerFee == 0.0 ==> TradeResult(s, p, exitPrice).value == Move(s, p, exitPrice)
  {
    var slipped := if p.direction == Long then exitPrice * (1.0 - s.slippage) else exitPrice * (1.0 + s.slippage);
    assert exitPrice * s.slippage >= 0.0;
    var gain := if p.direction == Long then slipped - p.entryPrice else p.entryPrice - slipped;
    var ideal := if p.direction == Long then exitPrice - p.entryPrice else p.entryPrice - exitPrice;
    assert gain <= ideal;
    ScaledDown(gain, ideal, p.entryPrice, s.leverage as real);
    FeesPositive(s.takerFee, s.leverage as real);
  }

  lemma ScaledDown(a: real, b: real, d: real, m: real)
    requires a <= b && d > 0.0 && m >= 0.0
    ensures a / d * m <= b / d * m
  {
    assert (b - a) / d >= 0.0;
    assert b / d - a / d == (b - a) / d;
    assert (b / d - a / d) * m >= 0.0;
  }

  lemma FeesPositive(fee: real, leverage: real)
    requires fee >= 0.0 && leverage >= 0.0
    ensures fee * leverage * 2.0 >= 0.0
  {
    assert fee * leverage >= 0.0;
  }

  // ----- The fold as a function -----

  // What a bar does to a position, what an exit is worth, and what a signal opens.
  datatype Rules = Rules(exit: (OpenPosition, Kline) -> Option<real>, result: (OpenPosition, real) -> Option<real>,
                         entry: (Signal, Kline) -> Option<OpenPosition>)

  function RulesOf(s: Setup): (rules: Rules)
    ensures forall p, bar :: rules.exit(p, bar) == ExitPrice(s, p, bar)
    ensures forall p, price :: rules.result(p, price) == TradeResult(s, p, price)
    ensures forall signal, next :: rules.entry(signal, next) == Entry(s, signal, next)
  {
    Rules((p, bar) => ExitPrice(s, p, bar), (p, price) => TradeResult(s, p, price), (signal, next) => Entry(s, signal, next))
  }

  datatype Run = Run(pos: Option<OpenPosition>, trades: seq<real>)

  function Booked(trades: seq<real>, result: Option<real>): seq<real> { if result.Some? then trades + [result.value] else trades }

  function Exited(s: Rules, run: Run, next: Kline): Run {
    if run.pos.None? then run
    else
      var price := s.exit(run.pos.value, next);
      if price.None? then run else Run(None, Booked(run.trades, s.result(run.pos.value, price.value)))
  }

  function Entered(s: Rules, run: Run, signal: Signal, next: Kline): Run {
    var entry := s.entry(signal, next);
    if entry.None? then run
    else
      var price := s.exit(entry.value, next);
      if price.Some? then Run(None, Booked(run.trades, s.result(entry.value, price.value))) else Run(entry, run.trades)
  }

  // A bar: exits on the next one, then an entry at its open unless that is the last.
  function Advanced(s: Rules, strategy: Strategy, window: seq<Kline>, next: Kline, last: bool, run: Run): Run {
    var exited := Exited(s, run, next);
    if exited.pos.Some? || last then exited else Entered(s, exited, strategy(window), next)
  }

  function Iterate(s: Rules, strategy: Strategy, klines: seq<Kline>, i: nat, run: Run): Run
    requires i + 1 < |klines|
  {
    Advanced(s, strategy, klines[..i + 1], klines[i + 1], i + 2 >= |klines|, run)
  }

  function After(s: Rules, strategy: Strategy, klines: seq<Kline>, n: nat): Run
    requires n < |klines|
  {
    if n == 0 then Run(None, []) else Iterate(s, strategy, klines, n - 1, After(s, strategy, klines, n - 1))
  }

  // What is still open at the end is closed at the last close.
  function Trades(s: Rules, strategy: Strategy, klines: seq<Kline>): seq<real> {
    if |klines| < 2 then []
    else
      var run := After(s, strategy, klines, |klines| - 1);
      if run.pos.None? then run.trades else Booked(run.trades, s.result(run.pos.value, klines[|klines| - 1].close))
  }

  // ----- Statistics of a list of trades -----

  function Grown(equity: real, pnl: real): real { equity * (1.0 + pnl) }

  // Equity after the first k trades, starting from 1.
  function EquityAt(trades: seq<real>, k: nat): real
    requires k <= |trades|
  {
    if k == 0 then 1.0 else Grown(EquityAt(trades, k - 1), trades[k - 1])
  }

  // The highest equity so far.
  function PeakAt(trades: seq<real>, k: nat): (peak: real)
    requires k <= |trades|
    ensures peak >= 1.0
  {
    if k == 0 then 1.0 else MaxReal(PeakAt(trades, k - 1), EquityAt(trades, k))
  }

  function Share(peak: real, equity: real): real { if peak > 0.0 then (peak - equity) / peak else 0.0 }

  // The loss from the highest equity so far, as a share of it.
  function DrawdownAt(trades: seq<real>, k: nat): real
    requires k <= |trades|
  {
    Share(PeakAt(trades, k), EquityAt(trades, k))
  }

  /** Each trade moves equity by its share of it, and the drawdown is the share of the peak that is missing. */
  lemma EquityMeans(trades: seq<real>, k: nat)
    requires k <= |trades|
    ensures DrawdownAt(trades, k) * PeakAt(trades, k) == PeakAt(trades, k) - EquityAt(trades, k)
    ensures k > 0 ==> EquityAt(trades, k) - EquityAt(trades, k - 1) == trades[k - 1] * EquityAt(trades, k - 1)
  {
    assert PeakAt(trades, k) > 0.0;
  }

  ghost predicate IsMaxDrawdown(trades: seq<real>, dd: real) {
    && (forall k | 0 <= k <= |trades| :: DrawdownAt(trades, k) <= dd)
    && (exists k :: 0 <= k <= |trades| && DrawdownAt(trades, k) == dd)
  }

  /** The peak is the greatest equity reached. */
  lemma {:induction false} PeakIsGreatest(trades: seq<real>, k: nat)
    requires k <= |trades|
    ensures forall j | 0 <= j <= k :: EquityAt(trades, j) <= PeakAt(trades, k)
    ensures exists j :: 0 <= j <= k && EquityAt(trades, j) == PeakAt(trades, k)
  {
    if k == 0 {
      assert EquityAt(trades, 0) == PeakAt(trades, 0);
    } else {
      PeakIsGreatest(trades, k - 1);
      var j :| 0 <= j <= k - 1 && EquityAt(trades, j) == PeakAt(trades, k - 1);
      assert EquityAt(trades, if PeakAt(trades, k - 1) < EquityAt(trades, k) then k else j) == PeakAt(trades, k);
    }
  }

  function Sum(trades: seq<real>): real { if trades == [] then 0.0 else Sum(trades[..|trades| - 1]) + trades[|trades| - 1] }

  function Wins(trades: seq<real>): nat {
    if trades == [] then 0 else Wins(trades[..|trades| - 1]) + if trades[|trades| - 1] > 0.0 then 1 else 0
  }

  // ----- The running totals -----

  class Ledger {
    var trades: seq<real>
    var wins: nat
    var grossProfit: real
    var grossLoss: real
    var equity: real
    var peak: real
    var maxDrawdown: real

    ghost predicate Valid()
      reads this
    {
      && equity == EquityAt(trades, |trades|) && peak == PeakAt(trades, |trades|) && IsMaxDrawdown(trades, maxDrawdown)
      && grossProfit == Gains(trades) && grossLoss == Losses(trades) && wins == Wins(trades)
    }

    constructor ()
      ensures Valid() && trades == []
    {
      trades, wins, grossProfit, grossLoss := [], 0, 0.0, 0.0;
      equity, peak, maxDrawdown := 1.0, 1.0, 0.0;
      new;
      assert DrawdownAt([], 0) == 0.0;
    }

    method Record(pnl: real)
      requires Valid()
      modifies this
      ensures Valid() && trades == old(trades) + [pnl]
    {
      ghost var before := trades;
      trades := trades + [pnl];
      if pnl > 0.0 {
        wins := wins + 1;
        grossProfit := grossProfit + pnl;
      } else {
        grossLoss := grossLoss - pnl;
      }
      equity := Grown(equity, pnl);
      if equity > peak {
        peak := equity;
      }
      var dd := Share(peak, equity);
      if dd > maxDrawdown {
        maxDrawdown := dd;
      }
      assert trades[..|before|] == before;
      GrossAppended(before, pnl);
      EquityPrefix(before, pnl, |before|);
      DrawdownAppended(before, pnl, old(maxDrawdown));
    }
  }

  // The sum of the gains, and the sum of the losses as a positive number.
  function Gains(trades: seq<real>): (sum: real)
    ensures sum >= 0.0 && (sum > 0.0 <==> Wins(trades) > 0)
  {
    if trades == [] then 0.0
    else
      var t := trades[|trades| - 1];
      Gains(trades[..|trades| - 1]) + if t > 0.0 then t else 0.0
  }

  function Losses(trades: seq<real>): (sum: real)
    ensures sum >= 0.0 && Gains(trades) - sum == Sum(trades)
  {
    if trades == [] then 0.0
    else
      var t := trades[|trades| - 1];
      Losses(trades[..|trades| - 1]) + if t > 0.0 then 0.0 else -t
  }

  lemma GrossAppended(trades: seq<real>, pnl: real)
    ensures Gains(trades + [pnl]) == Gains(trades) + if pnl > 0.0 then pnl else 0.0
    ensures Losses(trades + [pnl]) == Losses(trades) + if pnl > 0.0 then 0.0 else -pnl
  {
    assert (trades + [pnl])[..|trades|] == trades;
  }

  lemma {:induction false} EquityPrefix(trades: seq<real>, pnl: real, k: nat)
    requires k <= |trades|
    ensures EquityAt(trades + [pnl], k) == EquityAt(trades, k) && PeakAt(trades + [pnl], k) == PeakAt(trades, k)
  {
    if k > 0 {
      EquityPrefix(trades, pnl, k - 1);
    }
  }

  // One more trade: the greatest drawdown is the greater of the old one and the new one's.
  lemma DrawdownAppended(trades: seq<real>, pnl: real, dd: real)
    requires IsMaxDrawdown(trades, dd)
    ensures IsMaxDrawdown(trades + [pnl], MaxReal(dd, DrawdownAt(trades + [pnl], |trades| + 1)))
  {
    var all, n := trades + [pnl], |trades|;
    forall k | 0 <= k <= n
      ensures DrawdownAt(all, k) == DrawdownAt(trades, k)
    {
      EquityPrefix(trades, pnl, k);
    }
    var k :| 0 <= k <= n && DrawdownAt(trades, k) == dd;
    assert DrawdownAt(all, if dd < DrawdownAt(all, n + 1) then n + 1 else k) == MaxReal(dd, DrawdownAt(all, n + 1));
  }

  // ----- The code -----

  datatype Factor = Finite(value: real) | Infinite

  datatype Stats = Stats(numTrades: nat, maxDrawdown: real, profitFactor: Factor, winRate: real)

  function FactorOf(profit: real, loss: real): Factor {
    if loss > 0.0 then Finite(profit / loss) else if profit > 0.0 then Infinite else Finite(0.0)
  }

  // The offline definition of the statistics.
  ghost predicate IsStats(trades: seq<real>, stats: Stats) {
    && stats.numTrades == |trades|
    && IsMaxDrawdown(trades, stats.maxDrawdown)
    && stats.winRate == (if trades == [] then 0.0 else Wins(trades) as real / |trades| as real)
    && IsFactor(Gains(trades), Losses(trades), stats.profitFactor)
  }

  // The quotient of gains and losses, without losses infinite, and zero without either.
  ghost predicate IsFactor(profit: real, loss: real, factor: Factor) {
    match factor
    case Infinite => loss == 0.0 && profit > 0.0
    case Finite(value) => if loss == 0.0 then profit == 0.0 && value == 0.0 else value * loss == profit
  }

  lemma FactorIsQuotient(profit: real, loss: real)
    requires profit >= 0.0 && loss >= 0.0
    ensures IsFactor(profit, loss, FactorOf(profit, loss))
  {
    if loss > 0.0 {
      assert profit / loss * loss == profit;
    }
  }

  method Book(s: Rules, p: OpenPosition, exitPrice: real, ledger: Ledger)
    requires ledger.Valid()
    modifies ledger
    ensures ledger.Valid() && ledger.trades == Booked(old(ledger.trades), s.result(p, exitPrice))
  {
    var result := s.result(p, exitPrice);
    if result.Some? {
      ledger.Record(result.value);
    }
  }

  method Advance(s: Rules, strategy: Strategy, window: seq<Kline>, next: Kline, last: bool, open: Option<OpenPosition>, ledger: Ledger)
    returns (pos: Option<OpenPosition>)
    requires ledger.Valid()
    modifies ledger
    ensures ledger.Valid()
    ensures Run(pos, ledger.trades) == Advanced(s, strategy, window, next, last, Run(open, old(ledger.trades)))
  {
    pos := open;
    if pos.Some? {
      var price := s.exit(pos.value, next);
      if price.Some? {
        Book(s, pos.value, price.value, ledger);
        pos := None;
      }
    }
    if pos.Some? || last {
      return;
    }
    var entry := s.entry(strategy(window), next);
    if entry.None? {
      return;
    }
    var price := s.exit(entry.value, next);
    if price.Some? {
      Book(s, entry.value, price.value, ledger);
    } else {
      pos := entry;
    }
  }

  lemma OneMoreBar(s: Rules, strategy: Strategy, klines: seq<Kline>, i: nat)
    requires i + 1 < |klines|
    ensures After(s, strategy, klines, i + 1) ==
            Advanced(s, strategy, klines[..i + 1], klines[i + 1], i + 2 >= |klines|, After(s, strategy, klines, i))
  {}

  // All bars but the last, each with a growing window behind it.
  method Replay(s: Rules, strategy: Strategy, klines: seq<Kline>, ledger: Ledger) returns (pos: Option<OpenPosition>)
    requires |klines| >= 2 && ledger.Valid() && ledger.trades == []
    modifies ledger
    ensures ledger.Valid() && Run(pos, ledger.trades) == After(s, strategy, klines, |klines| - 1)
  {
    pos := None;
    var growingWindow: seq<Kline> := [];
    for i := 0 to |klines| - 1
      invariant ledger.Valid() && growingWindow == klines[..i]
      invariant Run(pos, ledger.trades) == After(s, strategy, klines, i)
    {
      growingWindow := growingWindow + [klines[i]];
      assert growingWindow == klines[..i + 1];
      OneMoreBar(s, strategy, klines, i);
      pos := Advance(s, strategy, growingWindow, klines[i + 1], i + 2 >= |klines|, pos, ledger);
    }
  }

  method Summarise(ledger: Ledger) returns (stats: Stats)
    requires ledger.Valid()
    ensures IsStats(ledger.trades, stats)
  {
    var factor := FactorOf(ledger.grossProfit, ledger.grossLoss);
    FactorIsQuotient(ledger.grossProfit, ledger.grossLoss);
    var rate := if |ledger.trades| > 0 then ledger.wins as real / |ledger.trades| as real else 0.0;
    return Stats(|ledger.trades|, ledger.maxDrawdown, factor, rate);
  }

  /** The streaming pass makes the trades of the fold and reports their offline statistics. */
  method RunRules(s: Rules, strategy: Strategy, klines: seq<Kline>) returns (stats: Stats)
    ensures IsStats(Trades(s, strategy, klines), stats)
  {
    var ledger := new Ledger();
    if |klines| >= 2 {
      var pos := Replay(s, strategy, klines, ledger);
      if pos.Some? {
        Book(s, pos.value, klines[|klines| - 1].close, ledger);
      }
    }
    stats := Summarise(ledger);
  }

  method RunFold(s: Setup, strategy: Strategy, klines: seq<Kline>) returns (stats: Stats)
    ensures IsStats(Trades(RulesOf(s), strategy, klines), stats)
  {
    stats := RunRules(RulesOf(s), strategy, klines);
  }

  // ----- Properties -----

  /** No look-ahead: series that agree on bars 0..i+1, both longer than i+2, give the same position and trades after bar i. */
  lemma {:induction false} NoLookAhead(s: Rules, strategy: Strategy, a: seq<Kline>, b: seq<Kline>, n: nat)
    requires n + 1 < |a| && n + 1 < |b| && a[..n + 1] == b[..n + 1]
    ensures After(s, strategy, a, n) == After(s, strategy, b, n)
  {
    if n > 0 {
      assert a[..n] == a[..n + 1][..n] && b[..n] == b[..n + 1][..n];
      assert a[n] == a[..n + 1][n] && b[n] == b[..n + 1][n];
      NoLookAhead(s, strategy, a, b, n - 1);
    }
  }

  /** At most one entry a bar, each closed at most once and none left open: no more trades than bars less two. */
  lemma {:induction false} TradesBounded(s: Rules, strategy: Strategy, klines: seq<Kline>, n: nat)
    requires n < |klines|
    ensures var run := After(s, strategy, klines, n);
            |run.trades| + (if run.pos.Some? then 1 else 0) <= if n + 1 < |klines| then n else n - 1 + (if n == 0 then 1 else 0)
  {
    if n > 0 {
      TradesBounded(s, strategy, klines, n - 1);
    }
  }

  lemma TradeCount(s: Rules, strategy: Strategy, klines: seq<Kline>)
    ensures |Trades(s, strategy, klines)| <= if |klines| < 2 then 0 else |klines| - 2
  {
    if |klines| >= 2 {
      TradesBounded(s, strategy, klines, |klines| - 1);
    }
  }

  /** The drawdown is a proper share while no single trade loses everything. */
  lemma DrawdownShare(trades: seq<real>, dd: real)
    requires IsMaxDrawdown(trades, dd) && forall t | t in trades :: t > -1.0
    ensures 0.0 <= dd < 1.0
  {
    var k :| 0 <= k <= |trades| && DrawdownAt(trades, k) == dd;
    EquityPositive(trades, k);
    PeakIsGreatest(trades, k);
    ShareOf(PeakAt(trades, k), EquityAt(trades, k));
  }

  /** The drawdown exceeds 1 exactly when equity falls below zero: the engine does not stop at ruin. */
  lemma RuinExceedsOne(trades: seq<real>, dd: real)
    requires IsMaxDrawdown(trades, dd)
    ensures dd > 1.0 <==> exists k :: 0 <= k <= |trades| && EquityAt(trades, k) < 0.0
  {
    if dd > 1.0 {
      var k :| 0 <= k <= |trades| && DrawdownAt(trades, k) == dd;
      ShareOf(PeakAt(trades, k), EquityAt(trades, k));
      assert EquityAt(trades, k) < 0.0;
    }
    if k :| 0 <= k <= |trades| && EquityAt(trades, k) < 0.0 {
      ShareOf(PeakAt(trades, k), EquityAt(trades, k));
      assert DrawdownAt(trades, k) <= dd;
    }
  }

  /** A fall of 30 percent at leverage 10 is such a trade: it loses three times the equity, and the drawdown is 3. */
  lemma LeveragedFallRuins(s: Setup, p: OpenPosition)
    requires s.leverage == 10 && s.slippage == 0.0 && s.takerFee == 0.0 && p.direction == Long && p.entryPrice == 100.0
    ensures TradeResult(s, p, 70.0) == Some(-3.0)
    ensures EquityAt([-3.0], 1) == -2.0 && IsMaxDrawdown([-3.0], 3.0)
  {
    var trades := [-3.0];
    assert EquityAt(trades, 0) == 1.0 && EquityAt(trades, 1) == -2.0;
    assert DrawdownAt(trades, 0) == 0.0 && DrawdownAt(trades, 1) == 3.0;
  }

  lemma ShareOf(peak: real, equity: real)
    requires peak > 0.0
    ensures Share(peak, equity) > 1.0 <==> equity < 0.0
    ensures Share(peak, equity) >= 0.0 <==> equity <= peak
    ensures Share(peak, equity) < 1.0 <==> equity > 0.0
  {
    var share := Share(peak, equity);
    assert share * peak == peak - equity;
    if share > 1.0 {
      assert (share - 1.0) * peak > 0.0;
    } else if share < 1.0 {
      assert (1.0 - share) * peak > 0.0;
    }
    if share < 0.0 {
      assert (0.0 - share) * peak > 0.0;
    } else {
      assert share * peak >= 0.0;
    }
  }

  lemma {:induction false} EquityPositive(trades: seq<real>, k: nat)
    requires k <= |trades| && forall t | t in trades :: t > -1.0
    ensures EquityAt(trades, k) > 0.0
  {
    if k > 0 {
      EquityPositive(trades, k - 1);
      assert trades[k - 1] in trades;
      GrownPositive(EquityAt(trades, k - 1), trades[k - 1]);
    }
  }

  lemma GrownPositive(equity: real, pnl: real)
    requires equity > 0.0 && pnl > -1.0
    ensures Grown(equity, pnl) > 0.0
  {
    var growth := 1.0 + pnl;
    assert equity * growth > 0.0;
  }
}
