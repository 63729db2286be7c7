/** The total-notional guard (src/engine/order_cap_controller.cpp). */
module OrderCap {
  import opened Common
  import opened SizingPolicy
  import opened TrackerSpec

  // A position as an account snapshot reports it.
  datatype Report = Report(symbol: string, positionAmt: real, notional: real, markPrice: real, entryPrice: real)

  datatype Account = Account(availableBalance: real, totalMarginBalance: real, ownReports: seq<Report>, reports: Option<seq<Report>>)

  datatype Config = Config(enabled: bool, maxTotalNotionalPct: real, failsOpen: bool)

  datatype Verdict = Allow | Block | Failed

  function ReportNotional(p: Report): (n: real)
    ensures n >= 0.0
  {
    if Flat(p.positionAmt) then 0.0
    else if Abs(p.notional) > 0.0 then Abs(p.notional)
    else if Abs(p.markPrice) > 0.0 then Abs(Times(p.positionAmt, p.markPrice))
    else if Abs(p.entryPrice) > 0.0 then Abs(Times(p.positionAmt, p.entryPrice))
    else 0.0
  }

  function TrackedNotional(t: TrackedPosition): real { Abs(Times(t.quantity, t.entryPrice)) }

  function AllReports(a: Account): seq<Report> {
    a.ownReports + if a.reports.Some? then a.reports.value else []
  }

  // ----- The book: the largest notional seen for each symbol -----

  function Raised(book: map<string, real>, symbol: string, notional: real): map<string, real> {
    if symbol in book && notional <= book[symbol] then book else book[symbol := notional]
  }

  function WithReport(book: map<string, real>, p: Report): map<string, real> {
    if ReportNotional(p) <= 0.0 || p.symbol == "" then book else Raised(book, p.symbol, ReportNotional(p))
  }

  function WithTracked(book: map<string, real>, t: TrackedPosition): map<string, real> {
    if t.symbol == "" then book else Raised(book, t.symbol, TrackedNotional(t))
  }

  function ReportBook(reports: seq<Report>): map<string, real> {
    if reports == [] then map[]
    else WithReport(ReportBook(reports[..|reports| - 1]), reports[|reports| - 1])
  }

  function Book(reports: seq<Report>, open: seq<TrackedPosition>): map<string, real> {
    if open == [] then ReportBook(reports)
    else WithTracked(Book(reports, open[..|open| - 1]), open[|open| - 1])
  }

  ghost function Total(book: map<string, real>): real
    decreases |book|
  {
    if book == map[] then 0.0
    else
      var s :| s in book;
      book[s] + Total(book - {s})
  }

  ghost function OpenNotional(a: Account, open: seq<TrackedPosition>): real { Total(Book(AllReports(a), open)) }

  function Cap(config: Config, a: Account): real { Times(a.totalMarginBalance, config.maxTotalNotionalPct) }

  ghost function Check(config: Config, proposed: real, a: Account, open: seq<TrackedPosition>): Verdict {
    if !config.enabled then Allow
    else if config.maxTotalNotionalPct <= 0.0 then Failed
    else if proposed <= 0.0 then Allow
    else if OpenNotional(a, open) + proposed > Cap(config, a) then Block
    else Allow
  }

  // ----- The code -----

  method NotionalReported(p: Report) returns (notional: real)
    ensures notional == ReportNotional(p)
  {
    if Abs(p.positionAmt) <= FLAT_EPSILON {
      return 0.0;
    }
    if p.notional != 0.0 {
      return Abs(p.notional);
    }
    if p.markPrice != 0.0 {
      return Abs(Times(p.positionAmt, p.markPrice));
    }
    return if p.entryPrice != 0.0 then Abs(Times(p.positionAmt, p.entryPrice)) else 0.0;
  }

  method SumOpenNotional(a: Account, open: seq<TrackedPosition>) returns (total: real)
    ensures total == OpenNotional(a, open)
  {
    var reports := a.ownReports;
    if a.reports.Some? {
      reports := reports + a.reports.value;
    }
    assert reports == AllReports(a);
    var book: map<string, real> := map[];
    for k := 0 to |reports|
      invariant book == ReportBook(reports[..k])
    {
      assert reports[..k + 1][..k] == reports[..k];
      var p := reports[k];
      var notional := NotionalReported(p);
      if notional <= 0.0 || p.symbol == "" {
        continue;
      }
      if p.symbol !in book || book[p.symbol] < notional {
        book := book[p.symbol := notional];
      }
    }
    assert reports[..|reports|] == reports;
    for k := 0 to |open|
      invariant book == Book(reports, open[..k])
    {
      assert open[..k + 1][..k] == open[..k];
      var t := open[k];
      if t.symbol == "" {
        continue;
      }
      var notional := Abs(Times(t.quantity, t.entryPrice));
      if t.symbol !in book || book[t.symbol] < notional {
        book := book[t.symbol := notional];
      }
    }
    assert open[..|open|] == open;
    total := 0.0;
    var rest := book;
    while rest != map[]
      invariant total + Total(rest) == Total(book)
      decreases |rest|
    {
      var s :| s in rest;
      TotalSplit(rest, s);
      total := total + rest[s];
      rest := rest - {s};
    }
  }

  method CheckOrder(config: Config, proposed: real, a: Account, open: seq<TrackedPosition>) returns (v: Verdict)
    ensures v == Check(config, proposed, a, open)
  {
    if !config.enabled {
      return Allow;
    }
    if config.maxTotalNotionalPct <= 0.0 {
      return Failed;
    }
    if proposed <= 0.0 {
      return Allow;
    }
    var total := SumOpenNotional(a, open);
    if total + proposed > Times(a.totalMarginBalance, config.maxTotalNotionalPct) {
      return Block;
    }
    return Allow;
  }

  // ----- What the book says -----

  // x is the notional of some report of s, or of some tracked position in s.
  ghost predicate Seen(reports: seq<Report>, open: seq<TrackedPosition>, s: string, x: real) {
    || (exists p | p in reports :: p.symbol == s && ReportNotional(p) == x && x > 0.0)
    || (exists t | t in open :: t.symbol == s && TrackedNotional(t) == x)
  }

  ghost predicate IsBook(book: map<string, real>, reports: seq<Report>, open: seq<TrackedPosition>) {
    && (forall s | s in book :: s != "" && Seen(reports, open, s, book[s]))
    && (forall s, x | s != "" && Seen(reports, open, s, x) :: s in book && x <= book[s])
  }

  lemma {:induction false} ReportBookMeaning(reports: seq<Report>)
    ensures IsBook(ReportBook(reports), reports, [])
  {
    if reports != [] {
      var front, last := reports[..|reports| - 1], reports[|reports| - 1];
      ReportBookMeaning(front);
      assert reports == front + [last];
      var book := ReportBook(reports);
      forall s | s in book
        ensures s != "" && Seen(reports, [], s, book[s])
      {
        assert (s in ReportBook(front) && Seen(front, [], s, ReportBook(front)[s])) || last in reports;
      }
      forall s, x | s != "" && Seen(reports, [], s, x)
        ensures s in book && x <= book[s]
      {
        assert Seen(front, [], s, x) || (last.symbol == s && ReportNotional(last) == x);
      }
    }
  }

  /** The book lists exactly the symbols with a live report or a tracked position, each at its largest notional. */
  lemma {:induction false} BookMeaning(reports: seq<Report>, open: seq<TrackedPosition>)
    ensures IsBook(Book(reports, open), reports, open)
  {
    if open == [] {
      ReportBookMeaning(reports);
    } else {
      var front, last := open[..|open| - 1], open[|open| - 1];
      BookMeaning(reports, front);
      assert open == front + [last];
      var before, book := Book(reports, front), Book(reports, open);
      forall s | s in book
        ensures s != "" && Seen(reports, open, s, book[s])
      {
        assert (s in before && Seen(reports, front, s, before[s])) || last in open;
      }
      forall s, x | s != "" && Seen(reports, open, s, x)
        ensures s in book && x <= book[s]
      {
        assert Seen(reports, front, s, x) || (last.symbol == s && TrackedNotional(last) == x);
      }
    }
  }

  // ----- Totals -----

  lemma {:induction false} TotalSplit(book: map<string, real>, s: string)
    requires s in book
    ensures Total(book) == book[s] + Total(book - {s})
    decreases |book|
  {
    var first :| first in book && Total(book) == book[first] + Total(book - {first});
    if first != s {
      TotalSplit(book - {first}, s);
      TotalSplit(book - {s}, first);
      assert book - {first} - {s} == book - {s} - {first};
    }
  }

  // Every entry of the smaller book is in the larger one, at no less.
  ghost predicate Within(small: map<string, real>, large: map<string, real>) {
    && (forall s | s in small :: s in large && small[s] <= large[s])
    && (forall s | s in large :: large[s] >= 0.0)
  }

  lemma {:induction false} TotalMonotone(small: map<string, real>, large: map<string, real>)
    requires Within(small, large)
    ensures Total(small) <= Total(large)
    decreases |large|
  {
    if large == map[] {
      assert small == map[];
    } else {
      var s :| s in large && Total(large) == large[s] + Total(large - {s});
      if s in small {
        TotalSplit(small, s);
      } else {
        assert small - {s} == small;
      }
      TotalMonotone(small - {s}, large - {s});
    }
  }

  lemma BookNonNegative(reports: seq<Report>, open: seq<TrackedPosition>)
    ensures forall s | s in Book(reports, open) :: Book(reports, open)[s] >= 0.0
  {
    BookMeaning(reports, open);
  }

  /** Recording a position raises the total by at most its own notional. */
  lemma RecordingRaises(a: Account, open: seq<TrackedPosition>, t: TrackedPosition)
    ensures OpenNotional(a, open) <= OpenNotional(a, open + [t]) <= OpenNotional(a, open) + TrackedNotional(t)
  {
    var before, after := Book(AllReports(a), open), Book(AllReports(a), open + [t]);
    assert (open + [t])[..|open|] == open;
    assert after == WithTracked(before, t);
    BookNonNegative(AllReports(a), open);
    BookNonNegative(AllReports(a), open + [t]);
    TotalMonotone(before, after);
    if after != before {
      TotalSplit(after, t.symbol);
      assert after - {t.symbol} == before - {t.symbol};
      if t.symbol in before {
        TotalSplit(before, t.symbol);
      } else {
        assert before - {t.symbol} == before;
      }
    }
  }

  /** Fewer tracked positions, listed in any order, never total more. */
  lemma FewerTotalLess(a: Account, some: seq<TrackedPosition>, all: seq<TrackedPosition>)
    requires forall t | t in some :: t in all
    ensures OpenNotional(a, some) <= OpenNotional(a, all)
  {
    var small, large := Book(AllReports(a), some), Book(AllReports(a), all);
    BookMeaning(AllReports(a), some);
    BookMeaning(AllReports(a), all);
    BookNonNegative(AllReports(a), all);
    forall s | s in small
      ensures s in large && small[s] <= large[s]
    {
      assert Seen(AllReports(a), some, s, small[s]);
      assert Seen(AllReports(a), all, s, small[s]);
    }
    TotalMonotone(small, large);
  }
}
